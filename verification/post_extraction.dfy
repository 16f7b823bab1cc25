/** `GetJsonPost` and `SerializerPost`: project a feed's title and its
    first item into the output shape and serialize it as JSON. */
module PostExtraction {
  import opened Wrappers
  import opened Exceptions
  import opened Syndication
  import opened FeedFetch

  /** The anonymous `Items` object: one item's title, summary, short date
      and first link. */
  datatype PostItem = PostItem(title: string, summary: string, publishDate: string, link: string)

  /** The anonymous object that is serialized: the feed title and its
      first item. */
  datatype LatestPost = LatestPost(title: string, items: PostItem)

  const NullDereference := Exn(NullReference, NullReferenceMessage, None)
  const EmptySequence := Exn(InvalidOperation, NoElementsMessage, None)

  const SerializationMessage := "Operação de serialização não suportada."

  /** The item has every field the projection dereferences. */
  predicate Projectable(item: Item) {
    item.title.Some? && item.summary.Some? && |item.links| > 0 && item.links[0].uri.Some?
  }

  /** The feed has a title and a projectable first item. */
  predicate Extractable(feed: Feed) {
    feed.title.Some? && |feed.items| > 0 && Projectable(feed.items[0])
  }

  /** The `Select` lambda applied to one item, with `formatDate` standing
      for `PublishDate.ToString("d")`. Fields are read in declaration order,
      so a missing title is reported before a missing summary, both before a
      missing link, and that before a link whose `Uri` is null. */
  function ProjectItem(item: Item, formatDate: Date -> string): (r: Result<PostItem, Exn>)
    ensures r.Success? <==> Projectable(item)
    ensures r.Success? ==> r.value.title == item.title.value && r.value.summary == item.summary.value
    ensures r.Success? ==> r.value.publishDate == formatDate(item.publishDate) && r.value.link == item.links[0].uri.value
    ensures (item.title.None? || item.summary.None?) ==> r == Failure(NullDereference)
    ensures item.title.Some? && item.summary.Some? && item.links == [] ==> r == Failure(EmptySequence)
    ensures item.links != [] && item.links[0].uri.None? ==> r == Failure(NullDereference)
  {
    if item.title.None? then Failure(NullDereference)
    else if item.summary.None? then Failure(NullDereference)
    else if item.links == [] then Failure(EmptySequence)
    else if item.links[0].uri.None? then Failure(NullDereference)
    else Success(PostItem(item.title.value, item.summary.value, formatDate(item.publishDate), item.links[0].uri.value))
  }

  /** The object built in `GetJsonPost`: the feed title and the projection
      of the feed's first item, taken as it comes with no re-sorting. The
      lazy `Select(...).First()` projects only that item. */
  function Extract(feed: Feed, formatDate: Date -> string): (r: Result<LatestPost, Exn>)
    ensures r.Success? <==> Extractable(feed)
    ensures r.Success? ==> r.value.title == feed.title.value
    ensures r.Success? ==> ProjectItem(feed.items[0], formatDate) == Success(r.value.items)
    ensures feed.title.None? ==> r == Failure(NullDereference)
    ensures feed.title.Some? && feed.items == [] ==> r == Failure(EmptySequence)
    ensures feed.title.Some? && feed.items != [] && !Projectable(feed.items[0]) ==>
      r == Failure(ProjectItem(feed.items[0], formatDate).error)
  {
    if feed.title.None? then Failure(NullDereference)
    else if feed.items == [] then Failure(EmptySequence)
    else
      var item :- ProjectItem(feed.items[0], formatDate);
      Success(LatestPost(feed.title.value, item))
  }

  /** Items after the first never influence the outcome, defective or not. */
  lemma ExtractIgnoresLaterItems(title: Option<string>, first: Item, rest1: seq<Item>, rest2: seq<Item>, formatDate: Date -> string)
    ensures Extract(Feed(title, [first] + rest1), formatDate) == Extract(Feed(title, [first] + rest2), formatDate)
  {
    assert ([first] + rest1)[0] == first == ([first] + rest2)[0];
  }

  /** A newest-first feed yields its newest entry, whatever the later
      entries' dates. */
  lemma ExtractFirstWins(title: string, newer: Item, older: Item, formatDate: Date -> string)
    requires Projectable(newer)
    ensures Extract(Feed(Some(title), [newer, older]), formatDate).Success?
    ensures Extract(Feed(Some(title), [newer, older]), formatDate).value.items.title == newer.title.value
  {
  }

  /** `SerializerPost(post)`, with `serialize` standing for
      `JsonSerializer.Serialize` under the controller's options: only a
      NotSupportedException (or a subclass of it) is rewrapped as a plain
      NotSupportedException, with a fixed message and the original as its
      cause. */
  function SerializerPost(post: LatestPost, serialize: LatestPost -> Result<string, Exn>): (r: Result<string, Exn>)
    ensures r.Success? <==> serialize(post).Success?
    ensures r.Success? ==> r.value == serialize(post).value
    ensures r.Failure? ==> (r.error.kind.NotSupported? <==> IsNotSupportedException(serialize(post).error.kind))
    ensures r.Failure? && IsNotSupportedException(serialize(post).error.kind) ==> r.error == Exn(NotSupported, SerializationMessage, Some(serialize(post).error))
    ensures r.Failure? && !IsNotSupportedException(serialize(post).error.kind) ==> r.error == serialize(post).error
  {
    match serialize(post)
    case Success(json) => Success(json)
    case Failure(ex) =>
      if IsNotSupportedException(ex.kind) then Failure(Exn(NotSupported, SerializationMessage, Some(ex)))
      else Failure(ex)
  }

  /** `GetJsonPost(feedUrl)`: fetch, extract, serialize. It returns JSON
      exactly when all three stages succeed, and otherwise the exception of
      the first stage that failed. */
  function GetJsonPost(feedUrl: string, load: string -> Result<Feed, Exn>,
                       serialize: LatestPost -> Result<string, Exn>, formatDate: Date -> string): (r: Result<string, Exn>)
    ensures r.Success? <==>
      && load(feedUrl).Success?
      && Extractable(load(feedUrl).value)
      && serialize(Extract(load(feedUrl).value, formatDate).value).Success?
    ensures load(feedUrl).Failure? ==> r == Failure(FetchFailure(feedUrl, load(feedUrl).error))
    ensures load(feedUrl).Success? && !Extractable(load(feedUrl).value) ==>
      r == Failure(Extract(load(feedUrl).value, formatDate).error)
    ensures load(feedUrl).Success? && !Extractable(load(feedUrl).value) ==>
      r.Failure? && (r.error == NullDereference || r.error == EmptySequence)
    ensures load(feedUrl).Success? && Extractable(load(feedUrl).value) ==>
      r == SerializerPost(Extract(load(feedUrl).value, formatDate).value, serialize)
    ensures r.Success? ==> r.value == serialize(Extract(load(feedUrl).value, formatDate).value).value
  {
    var feed :- GetFeed(feedUrl, load);
    var post :- Extract(feed, formatDate);
    SerializerPost(post, serialize)
  }
}
