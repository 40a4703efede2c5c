/** The two URL rewrites of the configuration dialog: the fix-up applied to
    the chat endpoint when the dialog is saved, and the derivation of the
    model-listing endpoint from it. */
module Urls {
  import opened Text

  const ChatCompletions: string := "/chat/completions"
  const ModelsPath: string := "/models"
  /** The API version segment `ModelsUrl` looks for. */
  const V1: string := "/v1"

  lemma ChatCompletionsUnbordered()
    ensures Unbordered(ChatCompletions)
  {
    var p := ChatCompletions;
    forall k | 0 < k < |p|
      ensures p[k..] != p[..|p| - k]
    {
      if k == 5 {
        assert p[k..][2] != p[..|p| - k][2];
      } else {
        assert p[k..][0] != p[..|p| - k][0];
      }
    }
  }

  lemma ModelsPathUnbordered()
    ensures Unbordered(ModelsPath)
  {
    var p := ModelsPath;
    forall k | 0 < k < |p|
      ensures p[k..] != p[..|p| - k]
    {
      assert p[k..][0] != p[..|p| - k][0];
    }
  }

  /** A URL ending in the chat path neither ends in the models path nor
      has whitespace at its end. */
  lemma ChatSuffixFacts(r: string)
    requires EndsWith(r, ChatCompletions)
    ensures Contains(r, ChatCompletions)
    ensures !EndsWith(r, ModelsPath)
    ensures !IsSpace(r[|r| - 1])
  {
    EndsWithContains(r, ChatCompletions);
    assert r[|r| - 7..] == r[|r| - 17..][10..];
    assert r[|r| - 7..][0] == 'l';
    assert r[|r| - 1] == r[|r| - 17..][16];
  }

  /** The stripped URL is one the fix-up leaves exactly as it is. */
  predicate KeptAsIs(s: string) {
    Contains(s, ChatCompletions) && !EndsWith(s, ModelsPath)
  }

  /** The `/models` branch of the fix-up: every `/models` becomes `/chat/completions`. */
  function ReplaceModelsPath(url: string): (r: string)
    requires |url| > 0 && Trimmed(url) && EndsWith(url, ModelsPath)
    ensures EndsWith(r, ChatCompletions) && Trimmed(r)
    ensures r == Join(Split(url, ModelsPath), ChatCompletions)
  {
    var r := ReplaceAll(url, ModelsPath, ChatCompletions);
    ModelsPathUnbordered();
    ReplaceAllKeepsSuffix(url, ModelsPath, ChatCompletions);
    ReplaceAllFirstChar(url, ModelsPath, ChatCompletions);
    ChatSuffixFacts(r);
    ReplaceAllIsJoinSplit(url, ModelsPath, ChatCompletions);
    r
  }

  /** The branch for a URL without `/chat/completions`: make sure it ends in
      `/`, then append `chat/completions` when it already has `v1/` and
      `v1/chat/completions` otherwise. The source's further tests
      (`"v1" in url and not url.endswith("v1/")`, which only guards a `pass`,
      and `not url.endswith("chat/completions")`, which always holds once the
      URL ends in `/`) do not change the result. */
  function CompleteChatPath(url: string): (r: string)
    requires |url| > 0 && Trimmed(url)
    ensures EndsWith(r, ChatCompletions) && Trimmed(r)
    ensures StartsWith(r, url)
    ensures EndsWith(url, "/") ==>
              r == url + (if Contains(url, "v1/") then "chat/completions" else "v1/chat/completions")
    ensures !EndsWith(url, "/") ==>
              r == url + "/" + (if Contains(url, "v1/") || EndsWith(url, "v1") then "chat/completions"
                                else "v1/chat/completions")
  {
    SlashedHasV1(url);
    var slashed := if EndsWith(url, "/") then url else url + "/";
    assert StartsWith(slashed, url) by {
      assert slashed[..|url|] == url;
    }
    var tail := if Contains(slashed, "v1/") then "chat/completions" else "v1/chat/completions";
    AppendAfterSlash(slashed, tail);
    var r := slashed + tail;
    ChatSuffixFacts(r);
    assert r[..|url|] == slashed[..|url|];
    r
  }

  /** After the added `/`, the URL has `v1/` exactly when it had `v1/`
      already or ended in `v1`. */
  lemma SlashedHasV1(url: string)
    ensures !EndsWith(url, "/") ==>
              (Contains(url + "/", "v1/") <==> Contains(url, "v1/") || EndsWith(url, "v1"))
  {
    if Contains(url, "v1/") {
      V1KeptBySlash(url, Find(url, "v1/").value);
    }
    if EndsWith(url, "v1") {
      V1KeptBySlash(url, |url| - 2);
    }
    if Contains(url + "/", "v1/") {
      V1BeforeSlash(url, Find(url + "/", "v1/").value);
    }
  }

  /** An occurrence of `v1/` in `url`, or a final `v1`, is an occurrence
      of `v1/` in `url + "/"`. */
  lemma V1KeptBySlash(url: string, i: int)
    requires OccursAt(url, "v1/", i) || (i == |url| - 2 && EndsWith(url, "v1"))
    ensures Contains(url + "/", "v1/")
  {
    var slashed := url + "/";
    if OccursAt(url, "v1/", i) {
      assert slashed[i..i + 3] == url[i..i + 3];
    } else {
      assert slashed[i..i + 3] == url[i..] + "/";
    }
    OccursContains(slashed, "v1/", i);
  }

  /** An occurrence of `v1/` in `url + "/"` is one in `url` or the final
      `v1` of `url` followed by the added `/`. */
  lemma V1BeforeSlash(url: string, i: int)
    requires OccursAt(url + "/", "v1/", i)
    ensures Contains(url, "v1/") || EndsWith(url, "v1")
  {
    var slashed := url + "/";
    if i + 3 <= |url| {
      assert url[i..i + 3] == slashed[i..i + 3];
      OccursContains(url, "v1/", i);
    } else {
      assert i == |url| - 2;
      assert slashed[i..i + 3][0] == 'v' && slashed[i..i + 3][1] == '1';
      assert url[i] == 'v' && url[i + 1] == '1';
      assert url[|url| - 2..] == [url[i], url[i + 1]];
    }
  }

  /** Appending a path piece that completes the chat path to a URL ending in `/`. */
  lemma AppendAfterSlash(slashed: string, tail: string)
    requires EndsWith(slashed, "/")
    requires tail == "chat/completions" || tail == "v1/chat/completions"
    ensures EndsWith(slashed + tail, ChatCompletions)
  {
    if tail == "chat/completions" {
      AppendChatAfterSlash(slashed);
    } else {
      assert EndsWith(tail, ChatCompletions) by {
        assert tail[|tail| - 17..] == ChatCompletions;
      }
      EndsWithAppend(slashed, tail, ChatCompletions);
    }
  }

  lemma AppendChatAfterSlash(slashed: string)
    requires EndsWith(slashed, "/")
    ensures EndsWith(slashed + "chat/completions", ChatCompletions)
  {
    var r := slashed + "chat/completions";
    assert slashed[|slashed| - 1..] == "/";
    assert r[|r| - 17..] == slashed[|slashed| - 1..] + "chat/completions";
  }

  /** `ConfigDialog.get_config`'s correction of the chat URL typed by the user. */
  function NormalizeChatUrl(input: string): (r: string)
    ensures Trimmed(r)
    ensures Strip(input) == [] <==> r == []
    ensures KeptAsIs(Strip(input)) ==> r == Strip(input)
    ensures Strip(input) != [] && !KeptAsIs(Strip(input)) ==> EndsWith(r, ChatCompletions)
    ensures !EndsWith(Strip(input), ModelsPath) ==> StartsWith(r, Strip(input))
    ensures EndsWith(Strip(input), ModelsPath) ==>
              r == Join(Split(Strip(input), ModelsPath), ChatCompletions)
    ensures Strip(input) != [] && !EndsWith(Strip(input), ModelsPath) && !Contains(Strip(input), ChatCompletions) ==>
              r == CompleteChatPath(Strip(input))
  {
    var url := Strip(input);
    if url == [] then url
    else if EndsWith(url, ModelsPath) then ReplaceModelsPath(url)
    else if Contains(url, ChatCompletions) then url
    else CompleteChatPath(url)
  }

  /** Saving the dialog twice corrects the URL no further than saving it once. */
  lemma NormalizeChatUrlIdempotent(input: string)
    ensures NormalizeChatUrl(NormalizeChatUrl(input)) == NormalizeChatUrl(input)
  {
    var r := NormalizeChatUrl(input);
    assert Strip(r) == r;
    if r != [] && !KeptAsIs(Strip(input)) {
      ChatSuffixFacts(r);
    }
  }

  /** `ConfigDialog.fetch_models`' derivation of the model-listing URL from a
      (stripped) chat URL: cut at the first `/chat/completions` and add
      `/models`; else cut at the first `/v1` and add `/v1/models`; else drop
      trailing slashes and add `/models`. */
  function ModelsUrl(url: string): (r: string)
    ensures EndsWith(r, ModelsPath)
    ensures StartsWith(url, r[..|r| - |ModelsPath|])
    ensures Contains(url, ChatCompletions) ==>
              && OccursAt(url, ChatCompletions, |r| - |ModelsPath|)
              && !Contains(r[..|r| - |ModelsPath|], ChatCompletions)
    ensures !Contains(url, ChatCompletions) && Contains(url, V1) ==>
              && EndsWith(r, V1 + ModelsPath)
              && OccursAt(url, V1, |r| - (|V1| + |ModelsPath|))
              && !Contains(r[..|r| - (|V1| + |ModelsPath|)], V1)
    ensures !Contains(url, ChatCompletions) && !Contains(url, V1) ==>
              && (forall k :: |r| - |ModelsPath| <= k < |url| ==> url[k] == '/')
              && (|r| == |ModelsPath| || r[|r| - |ModelsPath| - 1] != '/')
  {
    if Contains(url, ChatCompletions) then ModelsBesideChat(url)
    else if Contains(url, V1) then ModelsUnderV1(url)
    else ModelsAtRoot(url)
  }

  /** The first branch of `ModelsUrl`: `/models` in place of the first
      `/chat/completions` and everything after it. */
  function ModelsBesideChat(url: string): (r: string)
    requires Contains(url, ChatCompletions)
    ensures EndsWith(r, ModelsPath)
    ensures StartsWith(url, r[..|r| - |ModelsPath|])
    ensures OccursAt(url, ChatCompletions, |r| - |ModelsPath|)
    ensures !Contains(r[..|r| - |ModelsPath|], ChatCompletions)
  {
    var stem := Split(url, ChatCompletions)[0];
    FirstPiece(url, ChatCompletions);
    AppendParts(stem, ModelsPath);
    stem + ModelsPath
  }

  /** The second branch of `ModelsUrl`: `/v1/models` in place of the first
      `/v1` and everything after it. */
  function ModelsUnderV1(url: string): (r: string)
    requires Contains(url, V1)
    ensures EndsWith(r, ModelsPath)
    ensures StartsWith(url, r[..|r| - |ModelsPath|])
    ensures EndsWith(r, V1 + ModelsPath)
    ensures OccursAt(url, V1, |r| - (|V1| + |ModelsPath|))
    ensures !Contains(r[..|r| - (|V1| + |ModelsPath|)], V1)
  {
    var stem := Split(url, V1)[0];
    FirstPiece(url, V1);
    AppendParts(stem, V1 + ModelsPath);
    var r := stem + (V1 + ModelsPath);
    assert r[..|r| - |ModelsPath|] == stem + V1;
    assert url[..|stem| + 3] == stem + V1 by {
      assert url[..|stem| + 3] == url[..|stem|] + url[|stem|..|stem| + 3];
    }
    assert EndsWith(r, ModelsPath) by {
      assert r[|r| - |ModelsPath|..] == r[|r| - 10..][3..];
    }
    r
  }

  /** The last branch of `ModelsUrl`: trailing slashes dropped, `/models` added. */
  function ModelsAtRoot(url: string): (r: string)
    ensures EndsWith(r, ModelsPath)
    ensures StartsWith(url, r[..|r| - |ModelsPath|])
    ensures forall k :: |r| - |ModelsPath| <= k < |url| ==> url[k] == '/'
    ensures |r| == |ModelsPath| || r[|r| - |ModelsPath| - 1] != '/'
  {
    var stem := RStripChar(url, '/');
    AppendParts(stem, ModelsPath);
    stem + ModelsPath
  }

  /** For a chat URL with a single `/chat/completions` at its end, the model
      listing URL and the chat URL are each other's rewrite: fetching models
      from `p/chat/completions` asks `p/models`, and saving `p/models` as the
      chat URL turns it back into `p/chat/completions`. */
  lemma ChatAndModelsUrlsCorrespond(p: string)
    requires |p| > 0 && !IsSpace(p[0])
    requires !Contains(p, ChatCompletions) && !Contains(p, ModelsPath)
    ensures ModelsUrl(p + ChatCompletions) == p + ModelsPath
    ensures NormalizeChatUrl(p + ModelsPath) == p + ChatCompletions
  {
    ModelsUrlOfChatUrl(p);
    ChatUrlOfModelsUrl(p);
  }

  lemma ModelsUrlOfChatUrl(p: string)
    requires !Contains(p, ChatCompletions)
    ensures ModelsUrl(p + ChatCompletions) == p + ModelsPath
  {
    ChatCompletionsUnbordered();
    var chat := p + ChatCompletions;
    FindAfterClean(p, ChatCompletions, []);
    assert chat == p + ChatCompletions + [];
    assert chat[..|p|] == p;
  }

  lemma ChatUrlOfModelsUrl(p: string)
    requires |p| > 0 && !IsSpace(p[0]) && !Contains(p, ModelsPath)
    ensures NormalizeChatUrl(p + ModelsPath) == p + ChatCompletions
  {
    ModelsPathUnbordered();
    var models := p + ModelsPath;
    assert models == p + ModelsPath + [];
    FindAfterClean(p, ModelsPath, []);
    assert Trimmed(models);
    assert EndsWith(models, ModelsPath);
    var rest := models[|p| + |ModelsPath|..];
    assert rest == [];
    ReplaceAllEmpty(rest, ModelsPath, ChatCompletions);
    ReplaceAllAt(models, ModelsPath, ChatCompletions, |p|);
    assert models[..|p|] == p;
  }
}
