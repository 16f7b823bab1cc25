/** `GetFeed`: loads the syndication document at a URL and rewraps the
    failures it anticipates. */
module FeedFetch {
  import opened Wrappers
  import opened Text
  import opened Exceptions
  import opened Syndication

  /** The exception types named in the `catch ... when` filter of `GetFeed`. */
  predicate IsAnticipated(k: Kind) {
    k.ArgumentNull? || k.Security? || k.FileNotFound? || k.UriFormat? || k.HttpRequest?
  }

  /** The exception `GetFeed` throws when loading `sourceUrl` threw `ex`:
      an anticipated one is rethrown as the same type with a new message and
      `ex` as its cause; only the file-not-found and bad-format messages name
      the URL, and the HTTP message quotes the original message. Anything
      else escapes unchanged. */
  function FetchFailure(sourceUrl: string, ex: Exn): (e: Exn)
    ensures e.kind == ex.kind
    ensures IsAnticipated(ex.kind) ==> e.inner == Some(ex)
    ensures ex.kind.FileNotFound? || ex.kind.UriFormat? ==> Contains(e.message, sourceUrl)
    ensures ex.kind.HttpRequest? ==> Contains(e.message, ex.message)
    ensures !IsAnticipated(ex.kind) ==> e == ex
  {
    match ex.kind
    case ArgumentNull =>
      Exn(ArgumentNull, "A url do feed não foi passada.", Some(ex))
    case Security =>
      Exn(Security, "Sem permissão para acessar a url do feed/rss", Some(ex))
    case FileNotFound =>
      ContainsSuffix("Arquivo não encontrado na url de origem: ", sourceUrl);
      Exn(FileNotFound, "Arquivo não encontrado na url de origem: " + sourceUrl, Some(ex))
    case UriFormat =>
      var prefix := "A url do feed/rss fornecida não é válida. Formato incorreto: ";
      ContainsSuffix(prefix, sourceUrl);
      Exn(UriFormat, prefix + sourceUrl, Some(ex))
    case HttpRequest =>
      ContainsMiddle("Endereço não localizado.\nERRO MSG: ", ex.message, " ");
      Exn(HttpRequest, "Endereço não localizado.\nERRO MSG: " + ex.message + " ", Some(ex))
    case _ => ex
  }

  /** For a null argument, a security refusal and an HTTP failure the
      rethrown exception does not depend on the URL at all. */
  lemma FetchFailureIgnoresUrl(url1: string, url2: string, ex: Exn)
    requires ex.kind.ArgumentNull? || ex.kind.Security? || ex.kind.HttpRequest?
    ensures FetchFailure(url1, ex) == FetchFailure(url2, ex)
  {
  }

  /** `GetFeed(sourceUrl)`, with `load` standing for `XmlReader.Create`
      followed by `SyndicationFeed.Load`. A loaded feed is returned as it
      is; a failure keeps its exception type. */
  function GetFeed(sourceUrl: string, load: string -> Result<Feed, Exn>): (r: Result<Feed, Exn>)
    ensures r.Success? <==> load(sourceUrl).Success?
    ensures r.Success? ==> r.value == load(sourceUrl).value
    ensures r.Failure? ==> r.error == FetchFailure(sourceUrl, load(sourceUrl).error)
    ensures r.Failure? ==> r.error.kind == load(sourceUrl).error.kind
    ensures r.Failure? && IsAnticipated(r.error.kind) ==> r.error.inner == Some(load(sourceUrl).error)
  {
    match load(sourceUrl)
    case Success(feed) => Success(feed)
    case Failure(ex) => Failure(FetchFailure(sourceUrl, ex))
  }
}
