/**
 * The two listing routines of the handler, `listFolders` and `listImages`.
 * The storage provider's `bucketManager.listPrefix` is not modelled: each
 * routine receives the provider's callback arguments (`err`, `body`, `info`)
 * as a `Reply` and settles with a `Result`.
 */
module Listing {
  import opened Outcomes
  import opened JsString
  import opened Sequences
  import opened Sorting

  /** The one bucket every listing call names. */
  const Bucket := "dazhongruanjian"

  /** The text before the status code in the error a non-200 reply is rejected with. */
  const StatusFailurePrefix := "列表失败，状态码："

  /**
   * The options of a `listPrefix` call: the bucket, the prefix and, for the
   * folder lister only, the delimiter `/`. The `limit: 1000` option is only
   * passed on to the provider and is not part of this model.
   */
  datatype ListCall = ListCall(bucket: string, prefix: string, delimiter: Option<string>)

  /** The error object the provider passes as `err`. */
  datatype ProviderError = ProviderError(message: string)

  /** The provider's response body: `commonPrefixes` (may be absent) and the keys of `items`. */
  datatype Body = Body(commonPrefixes: Option<seq<string>>, itemKeys: seq<string>)

  /** The three callback arguments: `err`, `body` and `info.statusCode`. */
  datatype Reply = Reply(err: Option<ProviderError>, body: Body, statusCode: int)

  /** The options of `listFolders(prefix)`: the bucket, the prefix, grouped by `/`. */
  function FolderCall(prefix: string): (c: ListCall)
    ensures c.bucket == Bucket && c.prefix == prefix && c.delimiter == Some("/")
  {
    ListCall(Bucket, prefix, Some("/"))
  }

  /** The options of `listImages(prefix)`: the bucket and the prefix, with no delimiter. */
  function ImageCall(prefix: string): (c: ListCall)
    ensures c.bucket == Bucket && c.prefix == prefix && c.delimiter.None?
  {
    ListCall(Bucket, prefix, None)
  }

  /**
   * The message a listing promise is rejected with, or None when it resolves:
   * a provider error is passed on, and any status other than 200 becomes a
   * message that ends with the decimal status code: JavaScript's own text of
   * the number for a status below 10^21 in magnitude, which is the one number text that reads back as the code.
   */
  function Rejection(reply: Reply): (r: Option<string>)
    ensures reply.err.Some? ==> r == Some(reply.err.value.message)
    ensures reply.err.None? ==> (r.None? <==> reply.statusCode == 200)
    ensures reply.err.None? && r.Some? ==> r.value == StatusFailurePrefix + IntToString(reply.statusCode)
    ensures reply.err.None? && r.Some? ==>
              StatusFailurePrefix <= r.value
              && NumberText(r.value[|StatusFailurePrefix|..])
              && ParseInt(r.value[|StatusFailurePrefix|..]) == Some(reply.statusCode)
  {
    if reply.err.Some? then Some(reply.err.value.message)
    else if reply.statusCode == 200 then None
    else
      IntToStringRoundTrip(reply.statusCode);
      assert (StatusFailurePrefix + IntToString(reply.statusCode))[|StatusFailurePrefix|..]
          == IntToString(reply.statusCode);
      Some(StatusFailurePrefix + IntToString(reply.statusCode))
  }

  // ---------------------------------------------------------------------
  // listFolders

  /**
   * `p.replace(prefix, '').replace(/\/$/, '')` for one common prefix `p`: never
   * longer than `p`, and when `p` starts with `prefix`, the rest of `p` without
   * a trailing slash.
   */
  function FolderName(prefix: string, p: string): (r: string)
    ensures |r| <= |p|
    ensures prefix <= p ==> r == StripTrailingSlash(p[|prefix|..])
  {
    var r := StripTrailingSlash(RemoveFirst(p, prefix));
    if prefix <= p then RemoveFirstOfPrefix(p, prefix); r else r
  }

  /** The folder names of a list of common prefixes, one for one and in order. */
  function FolderNames(prefix: string, ps: seq<string>): (r: seq<string>)
    ensures |r| == |ps|
    ensures forall i :: 0 <= i < |ps| ==> r[i] == FolderName(prefix, ps[i])
  {
    if ps == [] then [] else [FolderName(prefix, ps[0])] + FolderNames(prefix, ps[1..])
  }

  /**
   * `listFolders(prefix)` once the provider has replied: the folder names of
   * `commonPrefixes` (none when it is absent), or the rejection.
   */
  function ListFolders(prefix: string, reply: Reply): (r: Result<seq<string>>)
    ensures r.Failure? <==> Rejection(reply).Some?
    ensures r.Failure? ==> r.message == Rejection(reply).value
    ensures r.Ok? && reply.body.commonPrefixes.None? ==> r.value == []
    ensures r.Ok? && reply.body.commonPrefixes.Some? ==>
              var ps := reply.body.commonPrefixes.value;
              |r.value| == |ps| && forall i :: 0 <= i < |ps| ==> r.value[i] == FolderName(prefix, ps[i])
  {
    match Rejection(reply)
    case Some(message) => Failure(message)
    case None => Ok(FolderNames(prefix, reply.body.commonPrefixes.GetOr([])))
  }

  /** The common prefix `prefix + s + "/"` names the folder `s`. */
  lemma FolderNameOfChild(prefix: string, s: string)
    ensures FolderName(prefix, prefix + s + "/") == s
  {
    assert prefix + s + "/" == prefix + (s + "/");
    RemoveFirstAfterPrepend(prefix, s + "/");
    assert (s + "/")[..|s|] == s;
  }

  /** A common prefix that does not contain `prefix` only loses a trailing slash. */
  lemma FolderNameWithoutPrefix(prefix: string, p: string)
    requires !Contains(p, prefix)
    ensures FolderName(prefix, p) == StripTrailingSlash(p)
  {
  }

  /**
   * The removal is unanchored: in a common prefix `u + prefix + s + "/"`,
   * where the head `u` does not contain the first character of `prefix`,
   * the occurrence after `u` is removed and the head stays.
   */
  lemma FolderNameAfterHead(u: string, prefix: string, s: string)
    requires |prefix| > 0 && prefix[0] !in u
    ensures FolderName(prefix, u + prefix + s + "/") == u + s
  {
    var p := u + prefix + s + "/";
    var rest := u + (s + "/");
    assert RemoveFirst(p, prefix) == rest by {
      assert p == u + prefix + (s + "/");
      RemoveFirstAfterHead(u, prefix, s + "/");
    }
    assert StripTrailingSlash(rest) == u + s by {
      assert rest[..|rest| - 1] == u + s;
    }
  }

  /**
   * The provider groups keys by the delimiter, so every common prefix is
   * `prefix + name + "/"` with no slash in `name`. The lister recovers those
   * names exactly, and none of them contains a slash or starts with `prefix`.
   */
  lemma {:induction false} FolderNamesOfChildren(prefix: string, names: seq<string>, ps: seq<string>)
    requires |ps| == |names|
    requires forall i :: 0 <= i < |ps| ==> ps[i] == prefix + names[i] + "/"
    ensures FolderNames(prefix, ps) == names
  {
    var r := FolderNames(prefix, ps);
    forall i | 0 <= i < |ps| ensures r[i] == names[i] {
      FolderNameOfChild(prefix, names[i]);
    }
  }

  /** A folder name recovered from a delimited common prefix has no slash and does not start with `prefix`. */
  lemma ChildFolderNameIsClean(prefix: string, s: string)
    requires '/' in prefix && '/' !in s
    ensures var f := FolderName(prefix, prefix + s + "/"); '/' !in f && !(prefix <= f)
  {
    FolderNameOfChild(prefix, s);
  }

  // ---------------------------------------------------------------------
  // The file-name filter of listImages

  /** The characters `.` in a regular expression does not match. */
  predicate IsLineTerminator(c: char) {
    c == '\n' || c == '\r' || c == '\U{2028}' || c == '\U{2029}'
  }

  /** Upper-casing of ASCII letters; every other character is left alone. */
  function AsciiUpper(c: char): (u: char)
    ensures 'a' <= c <= 'z' ==> u != c && 'A' <= u <= 'Z'
    ensures !('a' <= c <= 'z') ==> u == c
  {
    if 'a' <= c <= 'z' then ((c as int) - 32) as char else c
  }

  /** The `i` flag's case folding, character by character. */
  function UpperAscii(s: string): (r: string)
    ensures |r| == |s|
    ensures forall i :: 0 <= i < |s| ==> r[i] == AsciiUpper(s[i])
  {
    if s == [] then [] else [AsciiUpper(s[0])] + UpperAscii(s[1..])
  }

  /**
   * One attempt of the regular expression `/\\.jpg$/i` at index `i`: a
   * backslash, one character that is not a line terminator, the letters
   * j, p, g in either case, then the end of the input. (With the `i` flag and
   * no `u` flag, only `j`/`J`, `p`/`P` and `g`/`G` match those letters.)
   */
  predicate JpgPatternAt(s: string, i: nat) {
    && i + 5 == |s|
    && s[i] == '\\'
    && !IsLineTerminator(s[i + 1])
    && AsciiUpper(s[i + 2]) == 'J'
    && AsciiUpper(s[i + 3]) == 'P'
    && AsciiUpper(s[i + 4]) == 'G'
  }

  /** The regular-expression search: try the pattern at `i`, then at each later index. */
  predicate SearchFrom(s: string, i: nat)
    decreases |s| - i
  {
    i <= |s| && (JpgPatternAt(s, i) || SearchFrom(s, i + 1))
  }

  /**
   * What the as-written filter accepts, read off the end of the name: a
   * backslash, any character other than a line terminator, then `jpg` in any case.
   */
  ghost predicate EndsWithBackslashAnyJpg(s: string) {
    |s| >= 5 && s[|s| - 5] == '\\' && !IsLineTerminator(s[|s| - 4]) && UpperAscii(s[|s| - 3..]) == "JPG"
  }

  /** A pattern anchored at the end can only match at `|s| - 5`: the search from `i` finds it there or nowhere. */
  lemma {:induction false} SearchFromEndsWith(s: string, i: nat)
    requires i <= |s|
    ensures SearchFrom(s, i) <==> (i + 5 <= |s| && JpgPatternAt(s, |s| - 5))
    decreases |s| - i
  {
    if i < |s| {
      SearchFromEndsWith(s, i + 1);
    }
  }

  /**
   * `name.match(/\\.jpg$/i)` is not null: the filter of listImages AS WRITTEN.
   * The search over all start positions succeeds exactly for the names ending
   * in a backslash, any character other than a line terminator, and `jpg`.
   */
  predicate MatchesJpgFilter(name: string): (b: bool)
    ensures b <==> EndsWithBackslashAnyJpg(name)
  {
    SearchFromEndsWith(name, 0);
    assert |name| >= 5 ==>
      var u := UpperAscii(name[|name| - 3..]);
      (u == "JPG" <==> u[0] == 'J' && u[1] == 'P' && u[2] == 'G');
    SearchFrom(name, 0)
  }

  /**
   * A name ending in a dot and `jpg` (in any case) passes the as-written
   * filter only when a backslash precedes the dot.
   */
  lemma DotJpgNeedsBackslash(stem: string, ext: string)
    requires UpperAscii(ext) == "JPG"
    ensures MatchesJpgFilter(stem + "." + ext) <==> |stem| > 0 && stem[|stem| - 1] == '\\'
  {
    var s := stem + "." + ext;
    assert |ext| == 3;
    assert s[|s| - 3..] == ext;
    if |stem| > 0 {
      assert s[|s| - 5] == stem[|stem| - 1];
    }
  }

  /** So the page image `1.jpg` is rejected, while `a\xJpG` is kept. */
  lemma JpgFilterExamples()
    ensures !MatchesJpgFilter("1.jpg")
    ensures MatchesJpgFilter("a\\xJpG")
  {
    assert UpperAscii("jpg") == "JPG";
    DotJpgNeedsBackslash("1", "jpg");
    assert JpgPatternAt("a\\xJpG", 1);
  }

  /** The filter the code evidently means, `/\.jpg$/i`: a dot, then `jpg` in any case, at the end. */
  predicate HasJpgExtension(name: string) {
    |name| >= 4 && name[|name| - 4] == '.' && UpperAscii(name[|name| - 3..]) == "JPG"
  }

  /** Every name `stem.jpg`, `stem.JPG`, `stem.Jpg`, ... passes the intended filter. */
  lemma DotJpgHasJpgExtension(stem: string, ext: string)
    requires UpperAscii(ext) == "JPG"
    ensures HasJpgExtension(stem + "." + ext)
  {
    var s := stem + "." + ext;
    assert |ext| == 3;
    assert s[|s| - 3..] == ext;
    assert s[|s| - 4] == '.';
  }

  // ---------------------------------------------------------------------
  // listImages

  /** `keys.map(key => key.replace(prefix, ''))`. */
  function StripKeys(prefix: string, keys: seq<string>): (r: seq<string>)
    ensures |r| == |keys|
    ensures forall i :: 0 <= i < |keys| ==> r[i] == RemoveFirst(keys[i], prefix)
  {
    if keys == [] then [] else [RemoveFirst(keys[0], prefix)] + StripKeys(prefix, keys[1..])
  }

  /**
   * The image lister with the file-name filter `keep`. Names the comparator
   * rates as equal stay in the order the provider listed their keys.
   */
  function ListImagesWith(prefix: string, reply: Reply, keep: string -> bool, le: (string, string) -> bool)
    : (r: Result<seq<string>>)
    requires TotalPreorder(le)
    ensures r.Failure? <==> Rejection(reply).Some?
    ensures r.Failure? ==> r.message == Rejection(reply).value
    ensures r.Ok? ==> Sorted(le, r.value)
    ensures r.Ok? ==> FilteredCopy(r.value, StripKeys(prefix, reply.body.itemKeys), keep)
    ensures r.Ok? ==> forall ties :: TiesOnly(le, ties) ==>
              Filter(r.value, ties) == Filter(Filter(StripKeys(prefix, reply.body.itemKeys), keep), ties)
  {
    match Rejection(reply)
    case Some(message) => Failure(message)
    case None =>
      var names := Filter(StripKeys(prefix, reply.body.itemKeys), keep);
      FilterCounts(StripKeys(prefix, reply.body.itemKeys), keep);
      assert forall ties :: TiesOnly(le, ties) ==> Filter(Sort(names, le), ties) == Filter(names, ties) by {
        forall ties | TiesOnly(le, ties) ensures Filter(Sort(names, le), ties) == Filter(names, ties) {
          SortIsStable(names, le, ties);
        }
      }
      Ok(Sort(names, le))
  }

  /**
   * `listImages(prefix)` once the provider has replied, AS WRITTEN: the
   * prefix-stripped item keys that match `/\\.jpg$/i`, sorted by the
   * comparator, or the rejection.
   */
  function ListImages(prefix: string, reply: Reply, le: (string, string) -> bool): (r: Result<seq<string>>)
    requires TotalPreorder(le)
    ensures r.Failure? <==> Rejection(reply).Some?
    ensures r.Failure? ==> r.message == Rejection(reply).value
    ensures r.Ok? ==> Sorted(le, r.value)
    ensures r.Ok? ==> FilteredCopy(r.value, StripKeys(prefix, reply.body.itemKeys), MatchesJpgFilter)
    ensures r.Ok? ==> forall ties :: TiesOnly(le, ties) ==>
              Filter(r.value, ties) == Filter(Filter(StripKeys(prefix, reply.body.itemKeys), MatchesJpgFilter), ties)
  {
    ListImagesWith(prefix, reply, MatchesJpgFilter, le)
  }

  /** The image lister with the intended `/\.jpg$/i` filter. */
  function ListImagesIntended(prefix: string, reply: Reply, le: (string, string) -> bool): (r: Result<seq<string>>)
    requires TotalPreorder(le)
    ensures r.Failure? <==> Rejection(reply).Some?
    ensures r.Failure? ==> r.message == Rejection(reply).value
    ensures r.Ok? ==> Sorted(le, r.value)
    ensures r.Ok? ==> FilteredCopy(r.value, StripKeys(prefix, reply.body.itemKeys), HasJpgExtension)
    ensures r.Ok? ==> forall ties :: TiesOnly(le, ties) ==>
              Filter(r.value, ties) == Filter(Filter(StripKeys(prefix, reply.body.itemKeys), HasJpgExtension), ties)
  {
    ListImagesWith(prefix, reply, HasJpgExtension, le)
  }

  /** Each key is `prefix` followed by the name at the same position. */
  ghost predicate KeysUnder(prefix: string, names: seq<string>, keys: seq<string>) {
    |keys| == |names| && forall i :: 0 <= i < |keys| ==> keys[i] == prefix + names[i]
  }

  /** Keys of the form `prefix + name` are stripped back to `name`. */
  lemma {:induction false} StripKeysOfChildren(prefix: string, names: seq<string>, keys: seq<string>)
    requires KeysUnder(prefix, names, keys)
    ensures StripKeys(prefix, keys) == names
  {
    var r := StripKeys(prefix, keys);
    forall i | 0 <= i < |keys| ensures r[i] == names[i] {
      RemoveFirstAfterPrepend(prefix, names[i]);
    }
  }

  /** A successful listing of keys `prefix + name`, where no name passes the written filter, is empty. */
  lemma AsWrittenListsNone(prefix: string, names: seq<string>, reply: Reply, le: (string, string) -> bool)
    requires TotalPreorder(le)
    requires reply.err.None? && reply.statusCode == 200 && KeysUnder(prefix, names, reply.body.itemKeys)
    requires forall i :: 0 <= i < |names| ==> !MatchesJpgFilter(names[i])
    ensures ListImages(prefix, reply, le) == Ok([])
  {
    var keys := reply.body.itemKeys;
    assert StripKeys(prefix, keys) == names by {
      StripKeysOfChildren(prefix, names, keys);
    }
    assert Filter(names, MatchesJpgFilter) == [] by {
      FilterRejectsAll(names, MatchesJpgFilter);
    }
    assert Rejection(reply) == None;
  }

  /**
   * A successful listing of keys `prefix + name`, where every name ends in
   * `.jpg`, is under the intended filter the sorted list of all the names.
   */
  lemma IntendedListsAll(prefix: string, names: seq<string>, reply: Reply, le: (string, string) -> bool)
    requires TotalPreorder(le)
    requires reply.err.None? && reply.statusCode == 200 && KeysUnder(prefix, names, reply.body.itemKeys)
    requires forall i :: 0 <= i < |names| ==> HasJpgExtension(names[i])
    ensures ListImagesIntended(prefix, reply, le) == Ok(Sort(names, le))
  {
    var keys := reply.body.itemKeys;
    assert StripKeys(prefix, keys) == names by {
      StripKeysOfChildren(prefix, names, keys);
    }
    assert Filter(names, HasJpgExtension) == names by {
      FilterKeepsAll(names, HasJpgExtension);
    }
    assert Rejection(reply) == None;
  }

  /** The pages of an issue, in the order the provider lists their keys. */
  const PlainPages: seq<string> := ["3.jpg", "1.jpg", "2.jpg"]

  /** A plain `.jpg` name passes the intended filter and fails the as-written one. */
  lemma PlainJpgName(stem: string)
    requires |stem| == 0 || stem[|stem| - 1] != '\\'
    ensures HasJpgExtension(stem + ".jpg") && !MatchesJpgFilter(stem + ".jpg")
  {
    assert UpperAscii("jpg") == "JPG";
    assert stem + ".jpg" == stem + "." + "jpg";
    DotJpgNeedsBackslash(stem, "jpg");
    DotJpgHasJpgExtension(stem, "jpg");
  }

  lemma PlainPagesAreDotJpg()
    ensures forall i :: 0 <= i < |PlainPages| ==> HasJpgExtension(PlainPages[i]) && !MatchesJpgFilter(PlainPages[i])
  {
    PlainJpgName("3");
    PlainJpgName("1");
    PlainJpgName("2");
  }

  /** Under an antisymmetric comparator that puts them 1, 2, 3, the pages sort so. */
  lemma PlainPagesSorted(le: (string, string) -> bool)
    requires TotalPreorder(le) && Antisymmetric(le)
    requires le("1.jpg", "2.jpg") && le("2.jpg", "3.jpg")
    ensures Sort(PlainPages, le) == ["1.jpg", "2.jpg", "3.jpg"]
  {
    var expected := ["1.jpg", "2.jpg", "3.jpg"];
    assert le("1.jpg", "3.jpg");
    assert Sorted(le, expected);
    assert multiset(PlainPages) == multiset(expected);
    SortIsTheSortedPermutation(PlainPages, expected, le);
  }

  /** The as-written image lister drops the pages `3.jpg`, `1.jpg`, `2.jpg`: the listing is empty. */
  lemma AsWrittenListsNoPlainPages(prefix: string, reply: Reply, le: (string, string) -> bool)
    requires TotalPreorder(le)
    requires reply.err.None? && reply.statusCode == 200 && KeysUnder(prefix, PlainPages, reply.body.itemKeys)
    ensures ListImages(prefix, reply, le) == Ok([])
  {
    PlainPagesAreDotJpg();
    AsWrittenListsNone(prefix, PlainPages, reply, le);
  }

  /** The intended image lister lists those pages 1, 2, 3 under a comparator that orders them so. */
  lemma IntendedListsPlainPagesInOrder(prefix: string, reply: Reply, le: (string, string) -> bool)
    requires TotalPreorder(le) && Antisymmetric(le)
    requires le("1.jpg", "2.jpg") && le("2.jpg", "3.jpg")
    requires reply.err.None? && reply.statusCode == 200 && KeysUnder(prefix, PlainPages, reply.body.itemKeys)
    ensures ListImagesIntended(prefix, reply, le) == Ok(["1.jpg", "2.jpg", "3.jpg"])
  {
    PlainPagesAreDotJpg();
    IntendedListsAll(prefix, PlainPages, reply, le);
    PlainPagesSorted(le);
  }
}
