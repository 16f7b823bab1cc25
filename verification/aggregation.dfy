/** `Get`: reads the feed list, fills one slot per feed in a sequential
    loop, each in its own try/catch, and returns the slots joined into a
    bracketed list. A slot whose feed failed stays null, and `string.Join`
    writes a null slot as the empty string, so a failed feed still takes
    its place between separators. */
module Aggregation {
  import opened Wrappers
  import opened Text
  import opened Exceptions
  import opened Syndication
  import opened FeedList
  import opened PostExtraction

  /** The feed-list file that `Get` reads. */
  const FeedListPath := "BlogsFeedUrl.txt"

  /** The separator passed to `string.Join`. */
  const Separator := ",\n"

  /** The outcome of one iteration's `try { posts[i] = GetJsonPost(url); }
      catch (Exception) { }`: the JSON, or nothing when it threw. */
  function SlotOf(url: string, load: string -> Result<Feed, Exn>,
                  serialize: LatestPost -> Result<string, Exn>, formatDate: Date -> string): (slot: Option<string>)
    ensures slot.None? <==> GetJsonPost(url, load, serialize, formatDate).Failure?
    ensures slot.Some? ==> slot.value == GetJsonPost(url, load, serialize, formatDate).value
  {
    GetJsonPost(url, load, serialize, formatDate).ToOption()
  }

  /** All slots after the loop, one per URL, in list order. */
  function Slots(urls: seq<string>, load: string -> Result<Feed, Exn>,
                 serialize: LatestPost -> Result<string, Exn>, formatDate: Date -> string): (slots: seq<Option<string>>)
    ensures |slots| == |urls|
    ensures forall i :: 0 <= i < |urls| ==> (slots[i].None? <==> GetJsonPost(urls[i], load, serialize, formatDate).Failure?)
  {
    seq(|urls|, i requires 0 <= i < |urls| => SlotOf(urls[i], load, serialize, formatDate))
  }

  /** The text `string.Join` writes for each slot: null becomes "". */
  function Texts(slots: seq<Option<string>>): (texts: seq<string>)
    ensures |texts| == |slots|
    ensures forall i :: 0 <= i < |slots| && slots[i].None? ==> texts[i] == ""
    ensures forall i :: 0 <= i < |slots| && slots[i].Some? ==> texts[i] == slots[i].value
  {
    seq(|slots|, i requires 0 <= i < |slots| => slots[i].GetOr(""))
  }

  /** `"[" + string.Join(",\n", posts) + "]"`. */
  function Render(slots: seq<Option<string>>): (out: string)
    ensures |out| >= 2 && out[0] == '[' && out[|out| - 1] == ']'
  {
    "[" + Join(Separator, Texts(slots)) + "]"
  }

  /** The exception `Get` throws when reading the feed list threw `ex`: a
      plain Exception with the same message and `ex` as its cause. */
  function Fatal(ex: Exn): (e: Exn)
    ensures e.kind.General? && e.message == ex.message && e.inner == Some(ex)
  {
    Exn(General, ex.message, Some(ex))
  }

  /** `Get()`. `readFile`, `load`, `serialize` and `formatDate` stand for the
      file system, the feed loader, the JSON serializer and the date
      formatter. Only a failure to read the feed list escapes; each feed's
      failure is absorbed into its own slot. */
  method Get(readFile: string -> Result<string, Exn>, load: string -> Result<Feed, Exn>,
             serialize: LatestPost -> Result<string, Exn>, formatDate: Date -> string)
    returns (r: Result<string, Exn>)
    ensures GetFeedList(FeedListPath, readFile).Failure? ==>
      r == Failure(Fatal(GetFeedList(FeedListPath, readFile).error))
    ensures GetFeedList(FeedListPath, readFile).Success? ==>
      r == Success(Render(Slots(GetFeedList(FeedListPath, readFile).value, load, serialize, formatDate)))
  {
    var list := GetFeedList(FeedListPath, readFile);
    if list.Failure? {
      return Failure(Fatal(list.error));
    }
    var feedList := list.value;
    var posts := new Option<string>[|feedList|](_ => None);
    for i := 0 to posts.Length
      invariant forall k :: 0 <= k < i ==> posts[k] == SlotOf(feedList[k], load, serialize, formatDate)
      invariant forall k :: i <= k < posts.Length ==> posts[k] == None
    {
      ghost var before := posts[..];
      var post := SlotOf(feedList[i], load, serialize, formatDate);
      if post.Some? {
        posts[i] := Some(post.value);
      }
      assert posts[i] == post;
      assert forall k :: 0 <= k < posts.Length && k != i ==> posts[k] == before[k];
    }
    SlotsAre(posts[..], feedList, load, serialize, formatDate);
    r := Success(Render(posts[..]));
  }

  lemma SlotsAre(slots: seq<Option<string>>, urls: seq<string>, load: string -> Result<Feed, Exn>,
                 serialize: LatestPost -> Result<string, Exn>, formatDate: Date -> string)
    requires |slots| == |urls|
    requires forall k :: 0 <= k < |urls| ==> slots[k] == SlotOf(urls[k], load, serialize, formatDate)
    ensures slots == Slots(urls, load, serialize, formatDate)
  {
  }

  /** There is one slot per URL; slot i is null exactly when feed i failed,
      and otherwise holds that feed's JSON. */
  lemma SlotsPerFeed(urls: seq<string>, load: string -> Result<Feed, Exn>,
                     serialize: LatestPost -> Result<string, Exn>, formatDate: Date -> string, i: nat)
    requires i < |urls|
    ensures |Slots(urls, load, serialize, formatDate)| == |urls|
    ensures Slots(urls, load, serialize, formatDate)[i].None? <==> GetJsonPost(urls[i], load, serialize, formatDate).Failure?
    ensures Slots(urls, load, serialize, formatDate)[i].Some? ==>
      Slots(urls, load, serialize, formatDate)[i].value == GetJsonPost(urls[i], load, serialize, formatDate).value
  {
  }

  /** Slot i depends on URL i alone: two lists that agree at i, or two
      loaders that agree on that URL, give the same slot i. */
  lemma SlotIsolation(urls1: seq<string>, urls2: seq<string>, load1: string -> Result<Feed, Exn>,
                      load2: string -> Result<Feed, Exn>, serialize: LatestPost -> Result<string, Exn>,
                      formatDate: Date -> string, i: nat)
    requires i < |urls1| && i < |urls2| && urls1[i] == urls2[i]
    requires load1(urls1[i]) == load2(urls2[i])
    ensures Slots(urls1, load1, serialize, formatDate)[i] == Slots(urls2, load2, serialize, formatDate)[i]
  {
  }

  lemma RenderIsFramedJoin(slots: seq<Option<string>>)
    ensures Render(slots) == "[" + Join(Separator, Texts(slots)) + "]"
  {
  }

  /** Between the brackets stands exactly the join of the slots' texts. */
  lemma RenderBody(slots: seq<Option<string>>)
    ensures Render(slots)[1..|Render(slots)| - 1] == Join(Separator, Texts(slots))
  {
    var body := Join(Separator, Texts(slots));
    assert ("[" + body + "]")[1..|body| + 1] == body;
  }

  /** An empty feed list gives "[]". */
  lemma RenderNoFeeds()
    ensures Render([]) == "[]"
  {
  }

  /** With n >= 1 feeds the output is as long as the slots' text, the two
      brackets and n - 1 separators together, whichever feeds failed. */
  lemma RenderLength(slots: seq<Option<string>>)
    requires |slots| >= 1
    ensures |Render(slots)| == 2 + |Concat(Texts(slots))| + (|slots| - 1) * |Separator|
  {
    JoinLength(Separator, Texts(slots));
  }

  /** When all n >= 1 feeds fail the output is n - 1 bare separators in
      brackets. */
  lemma RenderAllFailed(slots: seq<Option<string>>)
    requires |slots| >= 1
    requires forall k :: 0 <= k < |slots| ==> slots[k].None?
    ensures Render(slots) == "[" + Repeat(Separator, |slots| - 1) + "]"
  {
    var texts := Texts(slots);
    assert |texts| == |slots| >= 1;
    assert forall k :: 0 <= k < |texts| ==> texts[k] == "";
    JoinOfEmpties(Separator, texts);
    assert Join(Separator, texts) == Repeat(Separator, |slots| - 1);
    RenderIsFramedJoin(slots);
  }

  /** A failed feed between two others leaves an empty element: the output
      is "[A,\n,\nC]", not "[A,\nC]". */
  lemma RenderMiddleFailure(a: string, c: string)
    ensures Render([Some(a), None, Some(c)]) == "[" + a + ",\n,\n" + c + "]"
  {
    var texts := Texts([Some(a), None, Some(c)]);
    assert texts == [a, "", c];
    assert Join(Separator, ["", c]) == "" + Separator + c;
  }

  /** End to end: a list "a\nb;c" whose middle feed fails gives a's JSON,
      an empty element and c's JSON, with both separators kept. */
  lemma MiddleFeedFails(readFile: string -> Result<string, Exn>, load: string -> Result<Feed, Exn>,
                        serialize: LatestPost -> Result<string, Exn>, formatDate: Date -> string,
                        a: string, b: string, c: string, jsonA: string, jsonC: string)
    requires IsToken(a) && IsToken(b) && IsToken(c)
    requires readFile(FeedListPath) == Success(a + "\n" + b + ";" + c)
    requires GetJsonPost(a, load, serialize, formatDate) == Success(jsonA)
    requires GetJsonPost(b, load, serialize, formatDate).Failure?
    requires GetJsonPost(c, load, serialize, formatDate) == Success(jsonC)
    ensures GetFeedList(FeedListPath, readFile) == Success([a, b, c])
    ensures Render(Slots([a, b, c], load, serialize, formatDate)) == "[" + jsonA + ",\n,\n" + jsonC + "]"
  {
    SplitMixedSeparators(a, b, c);
    assert Slots([a, b, c], load, serialize, formatDate) == [Some(jsonA), None, Some(jsonC)];
    RenderMiddleFailure(jsonA, jsonC);
  }
}
