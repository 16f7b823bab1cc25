/** The parts of `System.ServiceModel.Syndication.SyndicationFeed` that
    the controller reads. A reference that may be null is an Option. */
module Syndication {
  import opened Wrappers

  /** A `DateTimeOffset`: a point in time and its offset from UTC. */
  datatype Date = Date(ticks: int, offsetMinutes: int)

  /** A `SyndicationLink`; `uri` is its `Uri.ToString()`, absent when the
      link's `Uri` is null. */
  datatype Link = Link(uri: Option<string>)

  /** A `SyndicationItem`: `Title.Text`, `Summary.Text` (absent when the
      item has no title or no summary), `PublishDate` and `Links`. */
  datatype Item = Item(title: Option<string>, summary: Option<string>, publishDate: Date, links: seq<Link>)

  /** A `SyndicationFeed`: `Title.Text` and `Items`, in document order. */
  datatype Feed = Feed(title: Option<string>, items: seq<Item>)
}
