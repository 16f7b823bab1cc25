/** The .NET exceptions that the controller throws, catches or lets
    through, as values. */
module Exceptions {
  import opened Wrappers

  /** The exception's run-time type. `IO` is a plain `IOException` (or a
      subclass not listed); `General` is `System.Exception` itself; `Xml`
      is what a malformed feed document raises; `Other` is any other type. */
  datatype Kind =
    | ArgumentNull
    | Security
    | FileNotFound
    | DirectoryNotFound
    | IO
    | UriFormat
    | HttpRequest
    | NotSupported
    | PlatformNotSupported
    | InvalidOperation
    | NullReference
    | Xml
    | General
    | Other(typeName: string)

  /** A thrown exception: its type, its `Message` and its `InnerException`. */
  datatype Exn = Exn(kind: Kind, message: string, inner: Option<Exn>)

  /** `ex is IOException`: FileNotFoundException and
      DirectoryNotFoundException derive from IOException. */
  predicate IsIOException(k: Kind) {
    k.FileNotFound? || k.DirectoryNotFound? || k.IO?
  }

  /** `ex is NotSupportedException`: PlatformNotSupportedException derives
      from NotSupportedException. */
  predicate IsNotSupportedException(k: Kind) {
    k.NotSupported? || k.PlatformNotSupported?
  }

  /** The message .NET gives a NullReferenceException. */
  const NullReferenceMessage := "Object reference not set to an instance of an object."

  /** The message of the InvalidOperationException that `First()` throws on
      an empty sequence. */
  const NoElementsMessage := "Sequence contains no elements"
}
