/** `GetFeedList`: reads the feed-list file and splits its text into feed
    URLs on carriage return, line feed, semicolon and space, dropping empty
    entries (`StringSplitOptions.RemoveEmptyEntries`). */
module FeedList {
  import opened Wrappers
  import opened Text
  import opened Exceptions

  /** The four separator characters passed to `Split`. Tab and the other
      whitespace characters are not among them. */
  predicate IsDelimiter(c: char) {
    c == '\r' || c == '\n' || c == ';' || c == ' '
  }

  /** A token as `Split` may return it: non-empty, with no separator in it. */
  predicate IsToken(t: string) {
    t != [] && forall i :: 0 <= i < |t| ==> !IsDelimiter(t[i])
  }

  /** The index of the first separator in `s`, or `|s|` when there is none. */
  function FirstDelimiter(s: string): (i: nat)
    ensures i <= |s|
    ensures i < |s| ==> IsDelimiter(s[i])
    ensures forall k :: 0 <= k < i ==> !IsDelimiter(s[k])
    decreases |s|
  {
    if s == [] then 0
    else if IsDelimiter(s[0]) then 0
    else 1 + FirstDelimiter(s[1..])
  }

  /** `s.Split(['\r', '\n', ';', ' '], StringSplitOptions.RemoveEmptyEntries)`. */
  function Split(s: string): (tokens: seq<string>)
    ensures forall k :: 0 <= k < |tokens| ==> IsToken(tokens[k])
    decreases |s|
  {
    var i := FirstDelimiter(s);
    if i == |s| then (if s == [] then [] else [s])
    else (if i == 0 then [] else [s[..i]]) + Split(s[i + 1..])
  }

  /** `s` with every separator character deleted. */
  function Strip(s: string): string
    decreases |s|
  {
    if s == [] then ""
    else (if IsDelimiter(s[0]) then "" else [s[0]]) + Strip(s[1..])
  }

  lemma FirstDelimiterIs(s: string, j: nat)
    requires j <= |s|
    requires j < |s| ==> IsDelimiter(s[j])
    requires forall k :: 0 <= k < j ==> !IsDelimiter(s[k])
    ensures FirstDelimiter(s) == j
  {
  }

  lemma {:induction false} StripAppend(x: string, y: string)
    ensures Strip(x + y) == Strip(x) + Strip(y)
    decreases |x|
  {
    if x != [] {
      assert (x + y)[1..] == x[1..] + y;
      StripAppend(x[1..], y);
    } else {
      assert x + y == y;
    }
  }

  lemma {:induction false} StripNoDelimiter(w: string)
    requires forall i :: 0 <= i < |w| ==> !IsDelimiter(w[i])
    ensures Strip(w) == w
    decreases |w|
  {
    if w != [] {
      StripNoDelimiter(w[1..]);
      assert w == [w[0]] + w[1..];
    }
  }

  lemma {:induction false} StripEmpty(s: string)
    ensures Strip(s) == "" <==> forall i :: 0 <= i < |s| ==> IsDelimiter(s[i])
    decreases |s|
  {
    if s != [] {
      StripEmpty(s[1..]);
      assert forall i :: 1 <= i < |s| ==> s[i] == s[1..][i - 1];
    }
  }

  /** A token that contains no separator comes back whole. */
  lemma {:induction false} SplitWord(w: string)
    requires IsToken(w)
    ensures Split(w) == [w]
  {
    FirstDelimiterIs(w, |w|);
  }

  /** Splitting distributes over a separator: the text before it and the
      text after it are split independently and the results concatenated. */
  lemma {:induction false} SplitAtDelimiter(a: string, d: char, b: string)
    requires IsDelimiter(d)
    ensures Split(a + [d] + b) == Split(a) + Split(b)
    decreases |a|
  {
    var s := a + [d] + b;
    var i := FirstDelimiter(a);
    FirstDelimiterIs(s, i);
    assert s[..i] == a[..i];
    if i == |a| {
      assert s[i + 1..] == b;
      assert a[..i] == a;
    } else {
      assert s[i + 1..] == a[i + 1..] + [d] + b;
      SplitAtDelimiter(a[i + 1..], d, b);
    }
  }

  /** Deleting separators up to and including the first one leaves the
      text before it. */
  lemma {:induction false} StripAtFirstDelimiter(s: string, i: nat)
    requires i < |s| && IsDelimiter(s[i])
    requires forall k :: 0 <= k < i ==> !IsDelimiter(s[k])
    ensures Strip(s) == s[..i] + Strip(s[i + 1..])
    decreases i
  {
    if i > 0 {
      var t := s[1..];
      assert forall k :: 0 <= k < i - 1 ==> t[k] == s[k + 1];
      StripAtFirstDelimiter(t, i - 1);
      assert t[i..] == s[i + 1..];
      assert [s[0]] + t[..i - 1] == s[..i];
    }
  }

  /** The tokens, concatenated in order, are the input with its separators
      deleted: no non-separator character is lost, reordered or duplicated. */
  lemma {:induction false} SplitConcat(s: string)
    ensures Concat(Split(s)) == Strip(s)
    decreases |s|
  {
    var i := FirstDelimiter(s);
    if i == |s| {
      StripNoDelimiter(s);
      if s != [] {
        assert Concat([s]) == s + Concat([]);
      }
    } else {
      var pre: seq<string> := if i == 0 then [] else [s[..i]];
      assert Split(s) == pre + Split(s[i + 1..]);
      SplitConcat(s[i + 1..]);
      ConcatAppend(pre, Split(s[i + 1..]));
      assert Concat(pre) == s[..i] by {
        if i > 0 {
          assert Concat(pre) == s[..i] + Concat([]);
        }
      }
      StripAtFirstDelimiter(s, i);
    }
  }

  /** An input that is empty or made only of separators yields no token,
      and any other input yields at least one. */
  lemma {:induction false} SplitEmpty(s: string)
    ensures Split(s) == [] <==> forall i :: 0 <= i < |s| ==> IsDelimiter(s[i])
  {
    SplitConcat(s);
    StripEmpty(s);
    var tokens := Split(s);
    if tokens != [] {
      assert Concat(tokens) == tokens[0] + Concat(tokens[1..]);
      assert IsToken(tokens[0]);
    }
  }

  /** Round trip: tokens joined by any one separator split back into the
      same tokens. */
  lemma {:induction false} SplitJoin(tokens: seq<string>, d: char)
    requires IsDelimiter(d)
    requires forall k :: 0 <= k < |tokens| ==> IsToken(tokens[k])
    ensures Split(Join([d], tokens)) == tokens
    decreases |tokens|
  {
    if |tokens| == 1 {
      SplitWord(tokens[0]);
    } else if |tokens| > 1 {
      var head, rest := tokens[0], tokens[1..];
      var joined := Join([d], rest);
      assert Join([d], tokens) == head + [d] + joined;
      SplitJoin(rest, d);
      SplitAtDelimiter(head, d, joined);
      SplitWord(head);
      assert tokens == [head] + rest;
    }
  }

  /** A tab is not a separator: it stays inside the token. */
  lemma {:induction false} SplitKeepsTab(a: string, b: string)
    requires IsToken(a) && IsToken(b)
    ensures Split(a + "\t" + b) == [a + "\t" + b]
  {
    var w := a + "\t" + b;
    assert forall i :: 0 <= i < |w| ==> w[i] == (if i < |a| then a[i] else if i == |a| then '\t' else b[i - |a| - 1]);
    SplitWord(w);
  }

  /** Line feeds and semicolons may be mixed in one list. */
  lemma SplitMixedSeparators(a: string, b: string, c: string)
    requires IsToken(a) && IsToken(b) && IsToken(c)
    ensures Split(a + "\n" + b + ";" + c) == [a, b, c]
  {
    SplitAtDelimiter(a + "\n" + b, ';', c);
    SplitAtDelimiter(a, '\n', b);
    SplitWord(a);
    SplitWord(b);
    SplitWord(c);
  }

  /** The exception that `GetFeedList` throws when reading `filePath` threw
      `ex`: a missing file is rethrown as FileNotFoundException and any other
      IOException as a plain Exception, both naming the path and keeping
      `ex` as the cause; anything else escapes unchanged. */
  function ReadFailure(filePath: string, ex: Exn): (e: Exn)
    ensures ex.kind.FileNotFound? ==> e.kind.FileNotFound?
    ensures IsIOException(ex.kind) && !ex.kind.FileNotFound? ==> e.kind.General?
    ensures IsIOException(ex.kind) ==> e.inner == Some(ex) && Contains(e.message, filePath)
    ensures !IsIOException(ex.kind) ==> e == ex
  {
    match ex.kind
    case FileNotFound =>
      ContainsMiddle("O arquivo ", filePath, " não foi encontrado");
      Exn(FileNotFound, "O arquivo " + filePath + " não foi encontrado", Some(ex))
    case _ =>
      if IsIOException(ex.kind) then
        ContainsSuffix("Erro de leitura no arquivo ", filePath);
        Exn(General, "Erro de leitura no arquivo " + filePath, Some(ex))
      else ex
  }

  /** `GetFeedList(filePath)`, with `readFile` standing for opening the file
      and reading it to the end. */
  function GetFeedList(filePath: string, readFile: string -> Result<string, Exn>): (r: Result<seq<string>, Exn>)
    ensures r.Success? <==> readFile(filePath).Success?
    ensures r.Success? ==> r.value == Split(readFile(filePath).value)
    ensures r.Success? ==> forall k :: 0 <= k < |r.value| ==> IsToken(r.value[k])
    ensures r.Success? ==> Concat(r.value) == Strip(readFile(filePath).value)
    ensures r.Failure? ==> r.error == ReadFailure(filePath, readFile(filePath).error)
  {
    match readFile(filePath)
    case Success(content) =>
      SplitConcat(content);
      Success(Split(content))
    case Failure(ex) => Failure(ReadFailure(filePath, ex))
  }
}
