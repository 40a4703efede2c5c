/** `ConfigDialog.fetch_models`: the listing request built from the dialog's
    fields, the extraction of model ids from the listing, their sorting, and
    the message the dialog shows for every outcome. */
module ModelList {
  import opened Maybe
  import opened Text
  import Urls

  /** An element of the listing: a JSON object, with its `"id"` when it has
      one, or any other JSON value. */
  datatype Item = Record(id: Option<string>) | NonRecord

  /** A decoded 200 reply: either a bare JSON list, or a JSON object whose
      `"data"` key (when present) holds the list. */
  datatype Listing = ListBody(items: seq<Item>) | ObjectBody(data: Option<seq<Item>>)

  /** What the GET of the listing URL came back with: a decoded 200 reply,
      another status (with `error.message` of the body when it has one), or
      the text of an exception raised on the way. */
  datatype ModelsResponse =
    | Received(listing: Listing)
    | Refused(status: nat, errorMessage: Option<string>, body: string)
    | Raised(message: string)

  /** What the dialog ends up showing. */
  datatype FetchResult =
    | MissingCredentials(warning: string)
    | Fetched(models: seq<string>, info: string)
    | NoModelIds(warning: string)
    | RequestFailed(warning: string)
    | ConnectionFailed(critical: string)

  const MissingCredentialsText: string := "请先填写 API URL 和 Key"
  const NoModelIdsText: string := "获取到数据，但未找到模型 ID 列表"
  /** How many characters of the server's error text the dialog shows. */
  const RequestErrorExcerpt: nat := 200

  /** `models_data`: the list itself, or `data.get("data", [])`. */
  function ListingItems(l: Listing): seq<Item> {
    match l
    case ListBody(items) => items
    case ObjectBody(data) => data.GetOr([])
  }

  /** Both reply shapes are read alike: a bare list and an object holding
      the same list under `"data"` give the same ids, and an object without
      `"data"` gives none. */
  lemma ListingShapesAgree(items: seq<Item>)
    ensures ExtractIds(ListingItems(ListBody(items))) == ExtractIds(ListingItems(ObjectBody(Some(items))))
    ensures ExtractIds(ListingItems(ObjectBody(None))) == []
  {
  }

  /** `[m["id"] for m in models_data if isinstance(m, dict) and "id" in m]`. */
  function ExtractIds(items: seq<Item>): (ids: seq<string>)
    ensures |ids| <= |items|
    ensures forall x :: x in ids <==> exists i :: 0 <= i < |items| && items[i] == Record(Some(x))
  {
    if items == [] then []
    else
      var rest := ExtractIds(items[1..]);
      assert forall i :: 0 < i < |items| ==> items[i] == items[1..][i - 1];
      match items[0]
      case Record(Some(x)) => [x] + rest
      case _ => rest
  }

  /** A single element yields its id exactly when it is an object with an
      `"id"`. */
  lemma ExtractIdsOne(item: Item)
    ensures item.Record? && item.id.Some? ==> ExtractIds([item]) == [item.id.value]
    ensures !(item.Record? && item.id.Some?) ==> ExtractIds([item]) == []
  {
    assert [item][1..] == [];
  }

  /** The comprehension keeps the listing's order: the ids of a
      concatenation are the ids of each part, one after the other. */
  lemma {:induction false} ExtractIdsAppend(a: seq<Item>, b: seq<Item>)
    ensures ExtractIds(a + b) == ExtractIds(a) + ExtractIds(b)
    decreases |a|
  {
    if a == [] {
      assert a + b == b;
    } else {
      assert (a + b)[0] == a[0];
      assert (a + b)[1..] == a[1..] + b;
      ExtractIdsAppend(a[1..], b);
    }
  }

  // ---------------------------------------------------------------------------
  // Python's ordering of strings and `sorted`
  // ---------------------------------------------------------------------------

  /** Python's `a <= b` on strings: lexicographic by code point, a proper
      prefix coming first. */
  predicate LexLe(a: string, b: string)
    decreases |a|
  {
    |a| == 0 || (|b| > 0 && (a[0] < b[0] || (a[0] == b[0] && LexLe(a[1..], b[1..]))))
  }

  /** At the first code point where `a` and `b` differ, `a`'s is smaller. */
  predicate FirstDifferenceSmaller(a: string, b: string) {
    exists k :: 0 <= k < |a| && k < |b| && a[..k] == b[..k] && a[k] < b[k]
  }

  /** `LexLe` is Python's ordering: `a` is a prefix of `b`, or at the first
      code point where they differ `a` has the smaller one. */
  lemma {:induction false} LexLeMeaning(a: string, b: string)
    ensures LexLe(a, b) <==> StartsWith(b, a) || FirstDifferenceSmaller(a, b)
    decreases |a|
  {
    if |a| > 0 && |b| > 0 {
      LexLeMeaning(a[1..], b[1..]);
      if a[0] == b[0] {
        SameHeadPrefix(a, b);
        SameHeadDifference(a, b);
      } else {
        DifferentHeads(a, b);
      }
    }
  }

  lemma SameHeadPrefix(a: string, b: string)
    requires |a| > 0 && |b| > 0 && a[0] == b[0]
    ensures StartsWith(b, a) <==> StartsWith(b[1..], a[1..])
  {
    if StartsWith(b, a) {
      assert b[1..][..|a| - 1] == b[..|a|][1..];
    }
    if StartsWith(b[1..], a[1..]) {
      assert b[..|a|] == [b[0]] + b[1..][..|a| - 1];
    }
  }

  lemma SameHeadDifference(a: string, b: string)
    requires |a| > 0 && |b| > 0 && a[0] == b[0]
    ensures FirstDifferenceSmaller(a, b) <==> FirstDifferenceSmaller(a[1..], b[1..])
  {
    if FirstDifferenceSmaller(a[1..], b[1..]) {
      var k :| 0 <= k < |a[1..]| && k < |b[1..]| && a[1..][..k] == b[1..][..k] && a[1..][k] < b[1..][k];
      assert a[..k + 1] == [a[0]] + a[1..][..k];
      assert b[..k + 1] == [b[0]] + b[1..][..k];
      assert a[k + 1] < b[k + 1];
    }
    if FirstDifferenceSmaller(a, b) {
      var k :| 0 <= k < |a| && k < |b| && a[..k] == b[..k] && a[k] < b[k];
      assert k > 0;
      assert a[1..][..k - 1] == a[..k][1..] && b[1..][..k - 1] == b[..k][1..];
      assert a[1..][k - 1] < b[1..][k - 1];
    }
  }

  lemma DifferentHeads(a: string, b: string)
    requires |a| > 0 && |b| > 0 && a[0] != b[0]
    ensures !StartsWith(b, a)
    ensures FirstDifferenceSmaller(a, b) <==> a[0] < b[0]
  {
    if a[0] < b[0] {
      assert a[..0] == b[..0];
    }
  }

  lemma {:induction false} LexLeTotal(a: string, b: string)
    ensures LexLe(a, b) || LexLe(b, a)
    decreases |a|
  {
    if |a| > 0 && |b| > 0 && a[0] == b[0] {
      LexLeTotal(a[1..], b[1..]);
    }
  }

  /** Adjacent elements are in order. */
  predicate Sorted(xs: seq<string>) {
    forall i :: 0 < i < |xs| ==> LexLe(xs[i - 1], xs[i])
  }

  /** Putting an element in front of a sorted list that starts no lower
      keeps it sorted. */
  lemma SortedCons(h: string, t: seq<string>)
    ensures Sorted(t) && (|t| > 0 ==> LexLe(h, t[0])) ==> Sorted([h] + t)
  {
    if Sorted(t) && (|t| > 0 ==> LexLe(h, t[0])) {
      forall i | 0 < i < |[h] + t|
        ensures LexLe(([h] + t)[i - 1], ([h] + t)[i])
      {
        if i > 1 {
          assert ([h] + t)[i - 1] == t[i - 2] && ([h] + t)[i] == t[i - 1];
        }
      }
    }
  }

  /** The dropped head of a sorted list, put back in front of a sorted
      insertion into its tail, keeps the list sorted. */
  lemma InsertStep(x: string, xs: seq<string>, rest: seq<string>)
    requires |xs| > 0 && LexLe(xs[0], x)
    requires |rest| > 0 && (rest[0] == x || (|xs| > 1 && rest[0] == xs[1]))
    requires Sorted(xs[1..]) ==> Sorted(rest)
    ensures Sorted(xs) ==> Sorted([xs[0]] + rest)
  {
    if Sorted(xs) {
      assert Sorted(xs[1..]) by {
        forall i | 0 < i < |xs| - 1
          ensures LexLe(xs[1..][i - 1], xs[1..][i])
        {
          assert xs[1..][i - 1] == xs[i - 1 + 1];
        }
      }
      assert |xs| > 1 ==> LexLe(xs[0], xs[1]);
      SortedCons(xs[0], rest);
    }
  }

  /** Inserts `x` before the first element it does not exceed. */
  function Insert(x: string, xs: seq<string>): (r: seq<string>)
    ensures |r| == |xs| + 1
    ensures multiset(r) == multiset(xs) + multiset{x}
    ensures r[0] == x || (|xs| > 0 && r[0] == xs[0])
    ensures Sorted(xs) ==> Sorted(r)
  {
    if xs == [] || LexLe(x, xs[0]) then
      SortedCons(x, xs);
      [x] + xs
    else
      var rest := Insert(x, xs[1..]);
      LexLeTotal(x, xs[0]);
      assert xs == [xs[0]] + xs[1..];
      InsertStep(x, xs, rest);
      [xs[0]] + rest
  }

  /** `sorted(ids)`: an ordered permutation of `ids`. */
  method SortIds(ids: seq<string>) returns (r: seq<string>)
    ensures Sorted(r)
    ensures multiset(r) == multiset(ids)
  {
    r := [];
    var i := 0;
    while i < |ids|
      invariant 0 <= i <= |ids|
      invariant Sorted(r)
      invariant multiset(r) == multiset(ids[..i])
    {
      assert ids[..i + 1] == ids[..i] + [ids[i]];
      r := Insert(ids[i], r);
      i := i + 1;
    }
    assert ids[..i] == ids;
  }

  /** The listing URL `fetch_models` would request for the dialog's URL and
      key fields, or `None` when either is blank after stripping. */
  function ListingRequest(urlField: string, keyField: string): (r: Option<string>)
    ensures r.None? <==> Strip(urlField) == [] || Strip(keyField) == []
    ensures r.Some? ==> EndsWith(r.value, Urls.ModelsPath)
    ensures r.Some? ==> r.value == Urls.ModelsUrl(Strip(urlField))
  {
    var url := Strip(urlField);
    if url == [] || Strip(keyField) == [] then None else Some(Urls.ModelsUrl(url))
  }

  /** `ConfigDialog.fetch_models`, with the HTTP exchange given as `response`. */
  method FetchModels(urlField: string, keyField: string, response: ModelsResponse)
    returns (request: Option<string>, result: FetchResult)
    requires response.Refused? ==> response.status != 200
    ensures request == ListingRequest(urlField, keyField)
    ensures request.None? <==> result.MissingCredentials?
    ensures result.MissingCredentials? ==> result.warning == MissingCredentialsText
    ensures request.Some? && response.Received? ==>
              var ids := ExtractIds(ListingItems(response.listing));
              && (ids == [] <==> result.NoModelIds?)
              && (result.NoModelIds? ==> result.warning == NoModelIdsText)
              && (ids != [] <==> result.Fetched?)
              && (result.Fetched? ==>
                    && Sorted(result.models)
                    && multiset(result.models) == multiset(ids)
                    && result.info == "成功获取 " + NatToString(|ids|) + " 个模型")
    ensures request.Some? && response.Refused? ==>
              result == RequestFailed("请求失败 (" + NatToString(response.status) + "):\n"
                                      + Take(response.errorMessage.GetOr(response.body), RequestErrorExcerpt))
    ensures request.Some? && response.Raised? ==>
              result == ConnectionFailed("连接异常: " + response.message)
  {
    request := ListingRequest(urlField, keyField);
    if request.None? {
      return request, MissingCredentials(MissingCredentialsText);
    }
    match response
    case Received(listing) =>
      var ids := ExtractIds(ListingItems(listing));
      if ids == [] {
        result := NoModelIds(NoModelIdsText);
      } else {
        var models := SortIds(ids);
        result := Fetched(models, "成功获取 " + NatToString(|ids|) + " 个模型");
      }
    case Refused(status, errorMessage, body) =>
      result := RequestFailed("请求失败 (" + NatToString(status) + "):\n"
                              + Take(errorMessage.GetOr(body), RequestErrorExcerpt));
    case Raised(message) =>
      result := ConnectionFailed("连接异常: " + message);
  }
}
