# BlogReader post aggregation, modelled in Dafny

BlogReader's server exposes one endpoint that returns the latest post of
every blog listed in a text file. `BlogPostController` does the work:

- `GetFeedList` reads `BlogsFeedUrl.txt` and splits it into feed URLs on
  carriage return, line feed, semicolon and space, dropping empty entries.
  A read failure is rethrown with the file path in its message.
- `GetFeed` loads the RSS/Atom document at a URL. Five anticipated exception
  types are rethrown with a new message. Any other exception escapes as it is.
- `GetJsonPost` projects the feed title and the feed's *first* item (title,
  summary, short date, first link) into an anonymous object. `SerializerPost`
  turns that object into JSON, rewrapping only `NotSupportedException` and its subclasses.
- `Get` allocates one slot per URL and fills slot *i* inside its own
  try/catch. It returns `"[" + string.Join(",\n", slots) + "]"`. A slot whose
  feed failed stays null, and `string.Join` writes it as the empty string.

The model has one module per concern:

| file | module | models |
|---|---|---|
| `wrappers.dfy` | `Wrappers` | `Option` for a nullable reference, `Result` for "returns or throws" |
| `text.dfy` | `Text` | `string.Join`, concatenation, "occurs in" |
| `exceptions.dfy` | `Exceptions` | exception types, `Message` and `InnerException` as a value `Exn` |
| `feed_list.dfy` | `FeedList` | `GetFeedList`: the split and the read-failure mapping |
| `syndication.dfy` | `Syndication` | the parts of `SyndicationFeed` the controller reads |
| `feed_fetch.dfy` | `FeedFetch` | `GetFeed`'s catch block |
| `post_extraction.dfy` | `PostExtraction` | `GetJsonPost`'s projection, `SerializerPost` |
| `aggregation.dfy` | `Aggregation` | `Get`: the slot-filling loop over an array, the join, the outer catch |

The pieces of the surrounding system become parameters. Each is a total
function returning a value or an exception:

- `readFile` stands for the file system.
- `load` stands for `XmlReader.Create` followed by `SyndicationFeed.Load`.
- `serialize` stands for `JsonSerializer.Serialize`.
- `formatDate` stands for `PublishDate.ToString("d")`.

`Get` is a method. Its loop fills a fresh `array<Option<string>>` in place.
The loop invariant says that the filled prefix holds each feed's outcome and
that every later slot is still null. The method is proved against the
functions `Slots` and `Render`, and the lemmas in `Aggregation` are about
those two functions.

The model follows the code on these points:

- A failed feed is not dropped from the output. It leaves an empty element,
  so the middle of three failing gives `"[A,\n,\nC]"`. That text is not a
  well-formed JSON array. See `RenderMiddleFailure` and `MiddleFeedFails`.
- Feeds are fetched one after another in a plain `for` loop. Nothing runs
  concurrently.
- Only the file-not-found and bad-URL-format messages name the feed URL.
  The null-argument and security messages are fixed text. The HTTP message
  quotes the original message instead of the URL.
- A malformed feed document (an `XmlException`) is not wrapped by `GetFeed`.
  It escapes unchanged, and `Get`'s per-feed catch absorbs it.
- There is no dedicated "empty feed" error. An empty feed fails inside
  `First()` with an `InvalidOperationException`, and so does an item with
  no link. A missing feed title, item title or item summary, or a first link
  whose `Uri` is null, fails with a `NullReferenceException`.
- Reading the feed list fails in three ways. A missing file is rethrown as
  `FileNotFoundException`. Any other `IOException` is rethrown as a plain
  `Exception`. Any other exception escapes unchanged. `Get` then rethrows
  whichever arrives as a plain `Exception` with the same message.

## Model

| member | source | states |
|---|---|---|
| `FeedList.Split` | BlogReader.Server/Controllers/BlogPostController.cs:145 | every token is non-empty and contains none of `\r`, `\n`, `;`, space |
| `FeedList.SplitConcat` | BlogReader.Server/Controllers/BlogPostController.cs:145 | the tokens concatenated in order equal the input with the four separators deleted |
| `FeedList.SplitEmpty` | BlogReader.Server/Controllers/BlogPostController.cs:145 | no token comes back exactly when the input is empty or made only of separators, both directions |
| `FeedList.SplitWord` | BlogReader.Server/Controllers/BlogPostController.cs:145 | a separator-free non-empty text is returned as one token |
| `FeedList.SplitAtDelimiter` | BlogReader.Server/Controllers/BlogPostController.cs:145 | splitting `a + [d] + b` at a separator `d` gives the tokens of `a` followed by those of `b` |
| `FeedList.SplitJoin` | BlogReader.Server/Controllers/BlogPostController.cs:145 | tokens joined by any one separator split back into the same tokens |
| `FeedList.SplitKeepsTab` | BlogReader.Server/Controllers/BlogPostController.cs:145 | a tab is not a separator and stays inside its token |
| `FeedList.SplitMixedSeparators` | BlogReader.Server/Controllers/BlogPostController.cs:138-145 | line feeds and semicolons may be mixed: `a\nb;c` gives `[a, b, c]` |
| `FeedList.ReadFailure` | BlogReader.Server/Controllers/BlogPostController.cs:147-156 | a missing file stays FileNotFound and is never reported as the generic kind; another IOException becomes a plain Exception; both name the path and keep the original as cause; anything else escapes unchanged |
| `FeedList.GetFeedList` | BlogReader.Server/Controllers/BlogPostController.cs:139-158 | succeeds exactly when the read succeeds, and then returns exactly `Split` of the file's text (well-formed tokens that spell the text without separators); otherwise throws the mapped read failure |
| `FeedFetch.FetchFailure` | BlogReader.Server/Controllers/BlogPostController.cs:109-128 | the exception type is always kept; the five anticipated types get the original as inner cause; only file-not-found and bad-format messages contain the URL; the HTTP message contains the original message; other exceptions escape unchanged |
| `FeedFetch.FetchFailureIgnoresUrl` | BlogReader.Server/Controllers/BlogPostController.cs:115-124 | for null-argument, security and HTTP failures the rethrown exception is the same whatever the URL |
| `FeedFetch.GetFeed` | BlogReader.Server/Controllers/BlogPostController.cs:100-129 | a loaded feed is returned unchanged; a failure is exactly `FetchFailure` of the load's exception, so it keeps its exception type, an anticipated one keeps the original as cause, and any other escapes unchanged |
| `FeedFetch.IsAnticipated` | BlogReader.Server/Controllers/BlogPostController.cs:109-111 | the five exception types named in the `when` filter: ArgumentNull, Security, FileNotFound, UriFormat, HttpRequest |
| `PostExtraction.ProjectItem` | BlogReader.Server/Controllers/BlogPostController.cs:61-67 | projection succeeds exactly when the item has a title, a summary and a first link with a non-null `Uri`; the fields are the item's title, summary, formatted date and first link's URI; a missing title or summary, or a null `Uri`, is a null dereference, a missing link an empty-sequence failure |
| `PostExtraction.Extract` | BlogReader.Server/Controllers/BlogPostController.cs:58-68 | succeeds exactly when the feed has a title and a projectable first item; the result carries the feed title and the projection of item 0; a missing feed title or an empty item list gives the corresponding failure; an unprojectable first item fails with exactly `ProjectItem`'s exception |
| `PostExtraction.ExtractIgnoresLaterItems` | BlogReader.Server/Controllers/BlogPostController.cs:61-67 | items after the first, defective or not, never change the outcome |
| `PostExtraction.ExtractFirstWins` | BlogReader.Server/Controllers/BlogPostController.cs:61-67 | of a newest-first feed the first item is projected, with no re-sorting |
| `PostExtraction.SerializerPost` | BlogReader.Server/Controllers/BlogPostController.cs:79-89 | a serialization succeeds or fails with the serializer; a NotSupportedException or a subclass of it (PlatformNotSupportedException) is rewrapped as a plain NotSupportedException, with the fixed message and the original as cause; any other failure passes unchanged with its kind |
| `PostExtraction.GetJsonPost` | BlogReader.Server/Controllers/BlogPostController.cs:53-71 | JSON is returned exactly when the fetch, the extraction and the serialization all succeed; a fetch failure is the mapped fetch exception; an extraction failure is exactly `Extract`'s exception (a null dereference or an empty sequence); after a successful extraction the result is exactly `SerializerPost` of the post, so a NotSupported failure arrives rewrapped |
| `Aggregation.Fatal` | BlogReader.Server/Controllers/BlogPostController.cs:41-44 | the escaping exception is a plain Exception with the same message and the original as its cause |
| `Aggregation.SlotOf` | BlogReader.Server/Controllers/BlogPostController.cs:35 | one iteration's try/catch: the slot is null exactly when `GetJsonPost` throws, and otherwise holds the JSON it returned |
| `Aggregation.Slots` | BlogReader.Server/Controllers/BlogPostController.cs:32-36 | one slot per URL, in list order; slot i is null exactly when feed i's `GetJsonPost` throws |
| `Aggregation.Texts` | BlogReader.Server/Controllers/BlogPostController.cs:38 | what `string.Join` writes for each slot: a null slot as "", any other slot as its JSON, one text per slot |
| `Aggregation.Render` | BlogReader.Server/Controllers/BlogPostController.cs:38 | the output starts with `[` and ends with `]` |
| `Aggregation.RenderBody` | BlogReader.Server/Controllers/BlogPostController.cs:38 | between the brackets stands exactly the `",\n"`-join of the slots' texts |
| `Text.Join` | BlogReader.Server/Controllers/BlogPostController.cs:38 | `string.Join`: the parts in order with the separator between neighbours; its properties are stated by `Text.JoinLength` and `Text.JoinOfEmpties` |
| `Text.JoinLength` | BlogReader.Server/Controllers/BlogPostController.cs:38 | a join of n >= 1 parts is as long as the parts together plus n - 1 separators |
| `Text.JoinOfEmpties` | BlogReader.Server/Controllers/BlogPostController.cs:38 | joining n >= 1 empty parts gives n - 1 separators and nothing else |
| `Aggregation.Get` | BlogReader.Server/Controllers/BlogPostController.cs:26-46 | a feed-list failure escapes as `Fatal` of it; otherwise the result is the bracketed join of one slot per URL, each slot that URL's JSON or null |
| `Aggregation.SlotsPerFeed` | BlogReader.Server/Controllers/BlogPostController.cs:32-36 | there are exactly as many slots as URLs; slot i is null exactly when feed i failed, and otherwise holds feed i's JSON |
| `Aggregation.SlotIsolation` | BlogReader.Server/Controllers/BlogPostController.cs:34-36 | slot i depends only on URL i and on what loading that URL gives |
| `Aggregation.RenderNoFeeds` | BlogReader.Server/Controllers/BlogPostController.cs:38 | zero feeds give `[]` |
| `Aggregation.RenderLength` | BlogReader.Server/Controllers/BlogPostController.cs:38 | for n >= 1 slots the output's length is the length of the slots' texts plus two brackets plus n - 1 separators, whatever failed |
| `Aggregation.RenderAllFailed` | BlogReader.Server/Controllers/BlogPostController.cs:34-38 | when every one of n >= 1 feeds fails the output is n - 1 bare separators in brackets |
| `Aggregation.RenderMiddleFailure` | BlogReader.Server/Controllers/BlogPostController.cs:38 | a failure between two successes leaves an empty element: `[A,\n,\nC]` |
| `Aggregation.MiddleFeedFails` | BlogReader.Server/Controllers/BlogPostController.cs:30-38 | end to end: the list `a\nb;c` parses to three URLs, and when only `b` fails the output is `[A,\n,\nC]` |

## Left out

- HTTP routing, the controller attributes, the constructor and the injected logger. The logger is never used.
- Reading the file, fetching and parsing the XML, and JSON serialization. These are library and I/O calls, so they are parameters of the model (`readFile`, `load`, `serialize`).
- The JSON text itself: indentation and the `$id` fields that `ReferenceHandler.Preserve` adds belong to the serializer parameter.
- Fetching the same URL twice. `readFile`, `load`, `serialize` and `formatDate` are fixed functions for the whole of `Get`. So a list that names a URL twice always gets two equal slots. The program fetches that URL twice, and one fetch can succeed while the other fails.
- `PublishDate.ToString("d")`. It depends on the culture, so it is the `formatDate` parameter.
- `Uri.ToString()` canonicalisation. A link with a non-null `Uri` is kept as the string that call returns.
- `reader.Close()` in `GetFeed`, and the `using` disposal in `GetFeedList`. Releasing resources is not modelled. When `Load` throws, the reader is left open.
- The IOException hierarchy is reduced to three kinds: `FileNotFound`, `DirectoryNotFound`, and `IO` for every other subclass.
- The `default: throw;` branches of both catch blocks. The `when` filters make them unreachable.
- Exceptions from allocation, `Split` or `string.Join` themselves, such as out-of-memory.
- The messages of the runtime's own `NullReferenceException` and `InvalidOperationException` are its English defaults. A localised runtime words them differently.
- BlogReader.Server/Controllers/BlogFeedController.cs is not part of this model. It only maps `GetFeedList`'s result one to one into objects.
- BlogReader.Server/Models/BlogPost.cs is not part of this model. It is a data class that nothing uses.
- The Angular client is not part of this model. It covers display, the HTTP subscription and HTML sanitising.
- Concurrency, bounded worker pools and cancellation. The code has none.
