/** Transport URLs: the parser, the printer, and that they undo each other exactly on well-formed values. */
module TransportUrl {
  import opened Errors

  datatype Scheme = Shm | Bus | Unix | Tcp

  datatype UrlError =
    | EmptyUrl
    | MissingScheme
    | UnsupportedScheme(name: string)
    | MissingTarget(kind: string)
    | InvalidPort(port: string)
    | InvalidQuery(part: string)

  datatype Pair = Pair(key: string, value: string)

  datatype Url = Url(scheme: Scheme, target: string, query: seq<Pair>)

  datatype Outcome<T> = Good(value: T) | Bad(error: UrlError)

  // ---- Splitting strings ----

  /** The index of the first `c`, or the length. */
  function Find(s: string, c: char): (i: nat)
    ensures i <= |s|
    ensures i < |s| ==> s[i] == c
    ensures forall j :: 0 <= j < i ==> s[j] != c
  {
    if s == "" || s[0] == c then 0 else 1 + Find(s[1..], c)
  }

  /** The index of the last `c`, if there is one. */
  function FindLast(s: string, c: char): (r: Option<nat>)
    ensures r.Some? ==> r.value < |s| && s[r.value] == c && forall j :: r.value < j < |s| ==> s[j] != c
    ensures r.None? ==> forall j :: 0 <= j < |s| ==> s[j] != c
  {
    if s == "" then None
    else if s[|s| - 1] == c then Some(|s| - 1)
    else FindLast(s[..|s| - 1], c)
  }

  predicate SeparatorAt(s: string, j: nat) {
    j + 3 <= |s| && s[j] == ':' && s[j + 1] == '/' && s[j + 2] == '/'
  }

  /** The index of the first "://", or the length. */
  function FindSeparator(s: string): (i: nat)
    ensures i <= |s|
    ensures i < |s| ==> i + 3 <= |s| && SeparatorAt(s, i)
    ensures forall j :: 0 <= j < i ==> !SeparatorAt(s, j)
  {
    if s == "" || SeparatorAt(s, 0) then 0
    else
      var i := FindSeparator(s[1..]);
      assert forall j :: 0 < j < i + 1 ==> SeparatorAt(s, j) == SeparatorAt(s[1..], j - 1);
      i + 1
  }

  /** The pieces between the occurrences of `c` (`split`). */
  function Pieces(s: string, c: char): (pieces: seq<string>)
    ensures |pieces| > 0
    decreases |s|
  {
    var i := Find(s, c);
    if i == |s| then [s] else [s[..i]] + Pieces(s[i + 1..], c)
  }

  // ---- Parsing ----

  function SchemeText(scheme: Scheme): string {
    match scheme
    case Shm => "shm"
    case Bus => "bus"
    case Unix => "unix"
    case Tcp => "tcp"
  }

  function ParseScheme(s: string): Outcome<Scheme> {
    if s == "shm" then Good(Shm)
    else if s == "bus" then Good(Bus)
    else if s == "unix" then Good(Unix)
    else if s == "tcp" then Good(Tcp)
    else Bad(UnsupportedScheme(s))
  }

  function TargetKind(scheme: Scheme): string {
    match scheme
    case Shm => "channel name"
    case Bus => "topic"
    case Unix => "socket path"
    case Tcp => "host:port"
  }

  predicate IsDigit(c: char) {
    '0' <= c <= '9'
  }

  function Decimal(s: string): nat
    requires forall i :: 0 <= i < |s| ==> IsDigit(s[i])
  {
    if s == "" then 0
    else
      assert IsDigit(s[|s| - 1]);
      10 * Decimal(s[..|s| - 1]) + (s[|s| - 1] as int - '0' as int)
  }

  /** What reads as a u16: digits, with an optional plus sign, up to 65535. */
  predicate IsPort(s: string) {
    var digits := if s != "" && s[0] == '+' then s[1..] else s;
    digits != "" && (forall i :: 0 <= i < |digits| ==> IsDigit(digits[i])) && Decimal(digits) <= 0xFFFF
  }

  /** `validate_tcp_target`: a host, a colon, and a port up to the next slash. */
  function CheckTcp(target: string): Outcome<()> {
    var colon := FindLast(target, ':');
    if colon.None? then Bad(MissingTarget("host:port"))
    else
      var after := target[colon.value + 1..];
      var port := after[..Find(after, '/')];
      if colon.value == 0 then Bad(MissingTarget("host"))
      else if !IsPort(port) then Bad(InvalidPort(port))
      else Good(())
  }

  /** The pair in one non-empty part: the key ends at the first equals sign. */
  function PairOf(part: string): Outcome<Pair> {
    var i := Find(part, '=');
    if i == |part| || i == 0 then Bad(InvalidQuery(part)) else Good(Pair(part[..i], part[i + 1..]))
  }

  /** The pairs of the parts in order; empty parts are skipped. */
  function PairsOf(parts: seq<string>): Outcome<seq<Pair>> {
    if parts == [] then Good([])
    else if parts[0] == "" then PairsOf(parts[1..])
    else
      match PairOf(parts[0])
      case Bad(error) => Bad(error)
      case Good(pair) =>
        match PairsOf(parts[1..])
        case Bad(error) => Bad(error)
        case Good(rest) => Good([pair] + rest)
  }

  /** `parse_query`. */
  method ParseQuery(query: string) returns (r: Outcome<seq<Pair>>)
    ensures r == PairsOf(Pieces(query, '&'))
  {
    var parts := Pieces(query, '&');
    var pairs: seq<Pair> := [];
    assert parts[0..] == parts;
    assert forall rest: seq<Pair> :: pairs + rest == rest;
    for i := 0 to |parts|
      invariant PairsOf(parts) == match PairsOf(parts[i..])
                                  case Bad(error) => Bad(error)
                                  case Good(rest) => Good(pairs + rest)
    {
      assert parts[i..][1..] == parts[i + 1..];
      if parts[i] == "" {
        continue;
      }
      var pair := PairOf(parts[i]);
      if pair.Bad? {
        return Bad(pair.error);
      }
      ghost var rest := PairsOf(parts[i + 1..]);
      if rest.Good? {
        assert pairs + ([pair.value] + rest.value) == (pairs + [pair.value]) + rest.value;
      }
      pairs := pairs + [pair.value];
    }
    assert parts[|parts|..] == [];
    assert pairs + [] == pairs;
    return Good(pairs);
  }

  /** `from_str`: the whole parser as a function. */
  function ParseUrl(s: string): Outcome<Url> {
    var i := FindSeparator(s);
    if s == "" then Bad(EmptyUrl)
    else if i == |s| || i == 0 then Bad(MissingScheme)
    else
      match ParseScheme(s[..i])
      case Bad(error) => Bad(error)
      case Good(scheme) =>
        var rest := s[i + 3..];
        var mark := Find(rest, '?');
        var target := rest[..mark];
        var query := if mark == |rest| then "" else rest[mark + 1..];
        if target == "" then Bad(MissingTarget(TargetKind(scheme)))
        else if scheme.Tcp? && CheckTcp(target).Bad? then Bad(CheckTcp(target).error)
        else
          match (if query == "" then Good([]) else PairsOf(Pieces(query, '&')))
          case Bad(error) => Bad(error)
          case Good(pairs) => Good(Url(scheme, target, pairs))
  }

  // ---- Printing ----

  function PairText(pair: Pair): string {
    pair.key + "=" + pair.value
  }

  function QueryText(pairs: seq<Pair>): string {
    if pairs == [] then ""
    else if |pairs| == 1 then PairText(pairs[0])
    else PairText(pairs[0]) + "&" + QueryText(pairs[1..])
  }

  function UrlText(url: Url): string {
    SchemeText(url.scheme) + "://" + url.target + (if url.query == [] then "" else "?" + QueryText(url.query))
  }

  lemma {:induction false} QueryTextAppend(pairs: seq<Pair>, pair: Pair)
    requires pairs != []
    ensures QueryText(pairs + [pair]) == QueryText(pairs) + "&" + PairText(pair)
  {
    if |pairs| == 1 {
      assert (pairs + [pair])[1..] == [pair];
    } else {
      assert (pairs + [pair])[1..] == pairs[1..] + [pair];
      QueryTextAppend(pairs[1..], pair);
    }
  }

  /** `to_url_string`. */
  method ToUrlString(url: Url) returns (s: string)
    ensures s == UrlText(url)
  {
    s := SchemeText(url.scheme) + "://" + url.target;
    for i := 0 to |url.query|
      invariant s == UrlText(url.(query := url.query[..i]))
    {
      ghost var before := url.query[..i];
      assert url.query[..i + 1] == before + [url.query[i]];
      if i > 0 {
        QueryTextAppend(before, url.query[i]);
      }
      s := s + (if i == 0 then "?" else "&");
      s := s + url.query[i].key;
      s := s + "=";
      s := s + url.query[i].value;
    }
    assert url.query[..|url.query|] == url.query;
  }

  // ---- The round trip ----

  predicate Free(s: string, c: char) {
    forall i :: 0 <= i < |s| ==> s[i] != c
  }

  predicate WellFormedPair(pair: Pair) {
    pair.key != "" && Free(pair.key, '=') && Free(pair.key, '&') && Free(pair.value, '&')
  }

  /** The values a URL string can denote. */
  predicate WellFormed(url: Url) {
    && url.target != "" && Free(url.target, '?')
    && (url.scheme.Tcp? ==> CheckTcp(url.target).Good?)
    && forall i :: 0 <= i < |url.query| ==> WellFormedPair(url.query[i])
  }

  lemma {:induction false} FindIn(s: string, c: char, rest: string)
    requires Free(s, c)
    requires rest == "" || rest[0] == c
    ensures Find(s + rest, c) == |s|
  {
    if s != "" {
      assert (s + rest)[1..] == s[1..] + rest;
      FindIn(s[1..], c, rest);
    } else {
      assert s + rest == rest;
    }
  }

  lemma FindNone(s: string, c: char)
    requires Free(s, c)
    ensures Find(s, c) == |s|
  {
    FindIn(s, c, "");
    assert s + "" == s;
  }

  lemma PairOfText(pair: Pair)
    requires WellFormedPair(pair)
    ensures PairText(pair) != "" && Free(PairText(pair), '&')
    ensures PairOf(PairText(pair)) == Good(pair)
  {
    var text := PairText(pair);
    FindIn(pair.key, '=', "=" + pair.value);
    assert text == pair.key + ("=" + pair.value);
    assert text[..|pair.key|] == pair.key && text[|pair.key| + 1..] == pair.value;
  }

  /** A piece without `c` comes off the front of a text. */
  lemma PiecesStep(first: string, rest: string, c: char)
    requires Free(first, c)
    ensures Pieces(first + ([c] + rest), c) == [first] + Pieces(rest, c)
  {
    var text := first + ([c] + rest);
    FindIn(first, c, [c] + rest);
    assert text[..|first|] == first && text[|first| + 1..] == rest;
  }

  lemma PiecesOne(text: string, c: char)
    requires Free(text, c)
    ensures Pieces(text, c) == [text]
  {
    FindNone(text, c);
  }

  lemma PairsOfCons(part: string, parts: seq<string>, pair: Pair)
    requires part != "" && PairOf(part) == Good(pair)
    requires PairsOf(parts).Good?
    ensures PairsOf([part] + parts) == Good([pair] + PairsOf(parts).value)
  {
    assert ([part] + parts)[1..] == parts;
  }

  lemma {:induction false} PairsOfText(pairs: seq<Pair>)
    requires pairs != []
    requires forall i :: 0 <= i < |pairs| ==> WellFormedPair(pairs[i])
    ensures QueryText(pairs) != ""
    ensures PairsOf(Pieces(QueryText(pairs), '&')) == Good(pairs)
  {
    hide PairsOf, Pieces, PairText, PairOf, WellFormedPair, Find;
    var first := PairText(pairs[0]);
    PairOfText(pairs[0]);
    if |pairs| == 1 {
      PiecesOne(first, '&');
      assert [first] + [] == [first];
      assert PairsOf([]) == Good([]) by {
        NoPairs();
      }
      PairsOfCons(first, [], pairs[0]);
      assert pairs == [pairs[0]] + [];
    } else {
      var rest := QueryText(pairs[1..]);
      PairsOfText(pairs[1..]);
      assert QueryText(pairs) == first + ("&" + rest);
      PiecesStep(first, rest, '&');
      PairsOfCons(first, Pieces(rest, '&'), pairs[0]);
      assert pairs == [pairs[0]] + pairs[1..];
    }
  }

  lemma NoPairs()
    ensures PairsOf([]) == Good([])
  {
  }

  /** The scheme of a string is the text before its first separator. */
  predicate Splits(s: string, scheme: string, rest: string) {
    s == scheme + ("://" + rest) && forall j :: 0 <= j < |scheme| ==> !SeparatorAt(s, j)
  }

  lemma SplitParts(s: string, scheme: string, rest: string)
    requires Splits(s, scheme, rest)
    ensures s != "" && FindSeparator(s) == |scheme| < |s|
    ensures s[..|scheme|] == scheme && s[|scheme| + 3..] == rest
  {
    assert SeparatorAt(s, |scheme|);
  }

  /** A scheme without a colon is found again in front of the separator. */
  lemma FreeSplits(scheme: string, rest: string)
    requires Free(scheme, ':')
    ensures Splits(scheme + ("://" + rest), scheme, rest)
  {
  }

  lemma SchemeNames(scheme: Scheme)
    ensures SchemeText(scheme) != "" && Free(SchemeText(scheme), ':')
    ensures ParseScheme(SchemeText(scheme)) == Good(scheme)
  {
  }

  function TailText(query: seq<Pair>): string {
    if query == [] then "" else "?" + QueryText(query)
  }

  /** The scheme, the separator and the rest come apart again. */
  lemma SchemeParts(url: Url)
    ensures var s, scheme := UrlText(url), SchemeText(url.scheme);
            && s != "" && FindSeparator(s) == |scheme| < |s|
            && s[..|scheme|] == scheme
            && s[|scheme| + 3..] == url.target + TailText(url.query)
  {
    hide FindSeparator, SchemeText, QueryText, Splits, SeparatorAt;
    var scheme, rest := SchemeText(url.scheme), url.target + TailText(url.query);
    SchemeNames(url.scheme);
    assert UrlText(url) == scheme + ("://" + rest);
    FreeSplits(scheme, rest);
    SplitParts(UrlText(url), scheme, rest);
  }

  /** The target and the query come apart again. */
  lemma RestParts(target: string, query: seq<Pair>)
    requires Free(target, '?')
    requires query != [] ==> QueryText(query) != ""
    ensures var rest := target + TailText(query);
            var mark := Find(rest, '?');
            && rest[..mark] == target
            && (if mark == |rest| then "" else rest[mark + 1..]) == if query == [] then "" else QueryText(query)
  {
    hide QueryText, Find;
    FindIn(target, '?', TailText(query));
  }

  /** What the parser makes of a string whose parts are known. */
  lemma ParseParts(s: string, scheme: string, rest: string, query: string, url: Url)
    requires s != "" && scheme != "" && FindSeparator(s) == |scheme| < |s|
    requires s[..|scheme|] == scheme && s[|scheme| + 3..] == rest
    requires ParseScheme(scheme) == Good(url.scheme)
    requires var mark := Find(rest, '?');
             rest[..mark] == url.target && (if mark == |rest| then "" else rest[mark + 1..]) == query
    requires url.target != "" && (url.scheme.Tcp? ==> CheckTcp(url.target).Good?)
    requires (if query == "" then Good([]) else PairsOf(Pieces(query, '&'))) == Good(url.query)
    ensures ParseUrl(s) == Good(url)
  {
    hide CheckTcp, Pieces, PairsOf, FindSeparator, Find, ParseScheme;
  }

  /** Parsing a printed well-formed URL gives it back. */
  lemma ParseOfText(url: Url)
    requires WellFormed(url)
    ensures ParseUrl(UrlText(url)) == Good(url)
  {
    hide CheckTcp, Pieces, PairsOf, QueryText, FindSeparator, Find, SchemeText, ParseScheme, UrlText, TailText,
         WellFormedPair,
         ParseUrl;
    SchemeNames(url.scheme);
    SchemeParts(url);
    if url.query != [] {
      PairsOfText(url.query);
    }
    RestParts(url.target, url.query);
    ParseParts(UrlText(url), SchemeText(url.scheme), url.target + TailText(url.query),
               if url.query == [] then "" else QueryText(url.query), url);
  }

  lemma {:induction false} PiecesFree(s: string, c: char)
    ensures forall i :: 0 <= i < |Pieces(s, c)| ==> Free(Pieces(s, c)[i], c)
    decreases |s|
  {
    var i := Find(s, c);
    assert Free(s[..i], c);
    if i < |s| {
      PiecesFree(s[i + 1..], c);
    }
  }

  lemma {:induction false} PairsWellFormed(parts: seq<string>)
    requires PairsOf(parts).Good?
    requires forall i :: 0 <= i < |parts| ==> Free(parts[i], '&')
    ensures forall i :: 0 <= i < |PairsOf(parts).value| ==> WellFormedPair(PairsOf(parts).value[i])
  {
    if parts != [] {
      assert Free(parts[0], '&');
      PairsWellFormed(parts[1..]);
    }
  }

  /** Whatever the parser accepts is well formed. */
  lemma ParsedIsWellFormed(s: string)
    requires ParseUrl(s).Good?
    ensures WellFormed(ParseUrl(s).value)
  {
    hide CheckTcp, Pieces, PairsOf, FindSeparator, Find, WellFormedPair;
    var rest := s[FindSeparator(s) + 3..];
    var mark := Find(rest, '?');
    var query := if mark == |rest| then "" else rest[mark + 1..];
    PiecesFree(query, '&');
    if query != "" {
      PairsWellFormed(Pieces(query, '&'));
    }
  }

  /**
   * For every accepted string, printing the parsed URL and parsing it again gives the same scheme,
   * target and ordered query pairs.
   */
  lemma UrlRoundTrip(s: string)
    requires ParseUrl(s).Good?
    ensures ParseUrl(UrlText(ParseUrl(s).value)) == ParseUrl(s)
  {
    hide ParseUrl, WellFormed, UrlText;
    ParsedIsWellFormed(s);
    ParseOfText(ParseUrl(s).value);
  }

  /** A URL value survives printing and parsing exactly when it is well formed. */
  lemma SurvivesExactly(url: Url)
    ensures ParseUrl(UrlText(url)) == Good(url) <==> WellFormed(url)
  {
    hide ParseUrl, WellFormed, UrlText;
    if WellFormed(url) {
      ParseOfText(url);
    } else if ParseUrl(UrlText(url)).Good? {
      ParsedIsWellFormed(UrlText(url));
    }
  }

  // ---- What a string denotes, and what is wrong with one that denotes nothing ----

  /** The text of each pair. */
  function Texts(pairs: seq<Pair>): (texts: seq<string>)
    ensures |texts| == |pairs|
  {
    if pairs == [] then [] else [PairText(pairs[0])] + Texts(pairs[1..])
  }

  /** The parts that are not empty, in order. */
  function NonEmpty(parts: seq<string>): seq<string> {
    if parts == [] then [] else (if parts[0] == "" then [] else [parts[0]]) + NonEmpty(parts[1..])
  }

  /** The text before the first question mark. */
  function TargetOf(rest: string): string {
    rest[..Find(rest, '?')]
  }

  /** The text behind the first question mark, if there is one. */
  function QueryOf(rest: string): string {
    var mark := Find(rest, '?');
    if mark == |rest| then "" else rest[mark + 1..]
  }

  /** A string denotes a URL: scheme, target, and the non-empty parts of the query, which are the pairs in order. */
  ghost predicate Denotes(s: string, url: Url) {
    && WellFormed(url)
    && exists rest :: Splits(s, SchemeText(url.scheme), rest)
                      && TargetOf(rest) == url.target && NonEmpty(Pieces(QueryOf(rest), '&')) == Texts(url.query)
  }

  /** A part of a query that is no pair: it has no equals sign, or begins with one. */
  predicate BadPart(part: string) {
    part != "" && (Free(part, '=') || part[0] == '=')
  }

  /** What is wrong with a target behind the scheme, by the name the error gives it. */
  predicate BadTarget(scheme: Scheme, target: string, kind: string) {
    || (target == "" && kind == TargetKind(scheme))
    || (scheme.Tcp? && target != "" && Free(target, ':') && kind == "host:port")
    || (scheme.Tcp? && target != "" && target[0] == ':' && Free(target[1..], ':') && kind == "host")
  }

  /** The text between the last colon of a target and the next slash. */
  ghost predicate PortOf(target: string, port: string) {
    exists host, path :: target == host + (":" + (port + path)) && host != ""
                         && Free(port + path, ':') && Free(port, '/') && (path == "" || path[0] == '/')
  }

  /** The error names what is wrong with the string. */
  ghost predicate Faulty(s: string, error: UrlError) {
    match error
    case EmptyUrl => s == ""
    case MissingScheme => s != "" && (SeparatorAt(s, 0) || forall j :: 0 <= j < |s| ==> !SeparatorAt(s, j))
    case UnsupportedScheme(name) =>
      && (exists rest :: Splits(s, name, rest))
      && forall scheme :: name != SchemeText(scheme)
    case MissingTarget(kind) =>
      exists scheme, rest :: Splits(s, SchemeText(scheme), rest) && BadTarget(scheme, TargetOf(rest), kind)
    case InvalidPort(port) =>
      !IsPort(port) && exists rest :: Splits(s, "tcp", rest) && PortOf(TargetOf(rest), port)
    case InvalidQuery(part) =>
      BadPart(part) && exists scheme, rest :: Splits(s, SchemeText(scheme), rest) && part in Pieces(QueryOf(rest), '&')
  }

  lemma SchemeOf(s: string)
    requires FindSeparator(s) < |s|
    ensures var i := FindSeparator(s); Splits(s, s[..i], s[i + 3..])
  {
    hide FindSeparator;
    var i := FindSeparator(s);
    Cut(s, i, i + 3);
    SeparatorText(s, i);
  }

  lemma Cut(s: string, i: nat, j: nat)
    requires i <= j <= |s|
    ensures s == s[..i] + (s[i..j] + s[j..])
  {
  }

  lemma SeparatorText(s: string, i: nat)
    requires SeparatorAt(s, i)
    ensures s[i..i + 3] == "://"
  {
  }

  lemma {:induction false} PairsOfTexts(parts: seq<string>, pairs: seq<Pair>)
    requires NonEmpty(parts) == Texts(pairs)
    requires forall i :: 0 <= i < |pairs| ==> WellFormedPair(pairs[i])
    ensures PairsOf(parts) == Good(pairs)
  {
    if parts != [] {
      if parts[0] == "" {
        PairsOfTexts(parts[1..], pairs);
      } else {
        assert NonEmpty(parts)[0] == parts[0] && NonEmpty(parts)[1..] == NonEmpty(parts[1..]);
        assert Texts(pairs)[1..] == Texts(pairs[1..]);
        PairOfText(pairs[0]);
        PairsOfTexts(parts[1..], pairs[1..]);
        assert pairs == [pairs[0]] + pairs[1..];
      }
    }
  }

  lemma {:induction false} TextsOfPairs(parts: seq<string>)
    requires PairsOf(parts).Good?
    ensures NonEmpty(parts) == Texts(PairsOf(parts).value)
  {
    if parts != [] {
      TextsOfPairs(parts[1..]);
      if parts[0] != "" {
        var i := Find(parts[0], '=');
        assert parts[0] == parts[0][..i] + "=" + parts[0][i + 1..];
        assert PairsOf(parts).value[1..] == PairsOf(parts[1..]).value;
      }
    }
  }

  lemma EmptyQuery()
    ensures NonEmpty(Pieces("", '&')) == []
  {
  }

  /** The parser accepts a string as a URL exactly when the string denotes it. */
  lemma ParsesExactly(s: string, url: Url)
    ensures ParseUrl(s) == Good(url) <==> Denotes(s, url)
  {
    hide CheckTcp, Pieces, PairsOf, NonEmpty, Texts, FindSeparator, Find, WellFormed, ParseUrl, SchemeText;
    EmptyQuery();
    if Denotes(s, url) {
      var rest :| Splits(s, SchemeText(url.scheme), rest) && TargetOf(rest) == url.target
                  && NonEmpty(Pieces(QueryOf(rest), '&')) == Texts(url.query);
      DenotedParses(s, rest, url);
    }
    if ParseUrl(s) == Good(url) {
      ParsedDenotes(s, url);
    }
  }

  lemma DenotedParses(s: string, rest: string, url: Url)
    requires WellFormed(url) && Splits(s, SchemeText(url.scheme), rest)
    requires TargetOf(rest) == url.target && NonEmpty(Pieces(QueryOf(rest), '&')) == Texts(url.query)
    ensures ParseUrl(s) == Good(url)
  {
    hide CheckTcp, Pieces, PairsOf, NonEmpty, FindSeparator, Find, ParseUrl, SchemeText, ParseScheme, WellFormedPair;
    SchemeNames(url.scheme);
    SplitParts(s, SchemeText(url.scheme), rest);
    PairsOfTexts(Pieces(QueryOf(rest), '&'), url.query);
    EmptyQuery();
    assert url.query != [] ==> Texts(url.query) != [];
    ParseParts(s, SchemeText(url.scheme), rest, QueryOf(rest), url);
  }

  lemma ParsedDenotes(s: string, url: Url)
    requires ParseUrl(s) == Good(url)
    ensures Denotes(s, url)
  {
    hide CheckTcp, Pieces, PairsOf, NonEmpty, Texts, FindSeparator, Find, WellFormed, Splits, SeparatorAt;
    ParsedIsWellFormed(s);
    SchemeOf(s);
    EmptyQuery();
    var rest := s[FindSeparator(s) + 3..];
    if QueryOf(rest) != "" {
      TextsOfPairs(Pieces(QueryOf(rest), '&'));
    }
  }

  lemma FindLastFree(s: string, c: char)
    ensures var r := FindLast(s, c);
            (r.None? ==> Free(s, c)) && (r.Some? ==> r.value < |s| && Free(s[r.value + 1..], c))
  {
  }

  lemma IsPortOf(target: string, host: string, port: string, path: string)
    requires target == host + (":" + (port + path)) && host != ""
    requires Free(port + path, ':') && Free(port, '/') && (path == "" || path[0] == '/')
    ensures PortOf(target, port)
  {
  }

  /** What is wrong with a target that the check for tcp refuses. */
  lemma TcpFault(target: string)
    requires target != "" && CheckTcp(target).Bad?
    ensures match CheckTcp(target).error
            case MissingTarget(kind) => BadTarget(Tcp, target, kind)
            case InvalidPort(port) => !IsPort(port) && PortOf(target, port)
            case _ => false
  {
    hide IsPort, PortOf, Find, FindLast;
    var colon := FindLast(target, ':');
    FindLastFree(target, ':');
    if colon.Some? && colon.value > 0 {
      var after := target[colon.value + 1..];
      var mark := Find(after, '/');
      var port, path, host := after[..mark], after[mark..], target[..colon.value];
      Cut(after, mark, mark);
      Cut(target, colon.value, colon.value + 1);
      assert after[mark..mark] + path == path && target[colon.value..colon.value + 1] == ":";
      IsPortOf(target, host, port, path);
    }
  }

  lemma {:induction false} QueryFault(parts: seq<string>)
    requires PairsOf(parts).Bad?
    ensures PairsOf(parts).error.InvalidQuery?
    ensures PairsOf(parts).error.part in parts && BadPart(PairsOf(parts).error.part)
  {
    if parts[0] == "" || PairOf(parts[0]).Good? {
      QueryFault(parts[1..]);
    }
  }

  lemma ParsesScheme(name: string)
    ensures ParseScheme(name).Bad? ==> ParseScheme(name).error == UnsupportedScheme(name)
    ensures ParseScheme(name).Bad? ==> forall scheme :: name != SchemeText(scheme)
    ensures ParseScheme(name).Good? ==> name == SchemeText(ParseScheme(name).value)
  {
  }

  /** An error names exactly what is wrong. */
  lemma ErrorNamesFault(s: string)
    requires ParseUrl(s).Bad?
    ensures Faulty(s, ParseUrl(s).error)
  {
    hide CheckTcp, Pieces, PairsOf, FindSeparator, Find, ParseScheme, SchemeText, BadTarget, PortOf, BadPart, IsPort,
         Splits;
    var i := FindSeparator(s);
    if s != "" && 0 < i < |s| {
      SchemeOf(s);
      ParsesScheme(s[..i]);
      var parsed, rest := ParseScheme(s[..i]), s[i + 3..];
      if parsed.Good? {
        var scheme := parsed.value;
        assert Splits(s, SchemeText(scheme), rest);
        if TargetOf(rest) == "" {
          assert BadTarget(scheme, TargetOf(rest), TargetKind(scheme)) by {
            NoTarget(scheme);
          }
        } else if scheme.Tcp? && CheckTcp(TargetOf(rest)).Bad? {
          TcpFault(TargetOf(rest));
          TcpText();
        } else {
          QueryFault(Pieces(QueryOf(rest), '&'));
        }
      }
    }
  }

  lemma NoTarget(scheme: Scheme)
    ensures BadTarget(scheme, "", TargetKind(scheme))
  {
  }

  lemma TcpText()
    ensures SchemeText(Tcp) == "tcp"
  {
  }

  /** A target for tcp is a host, the last colon, and a port up to the next slash or the end. */
  lemma TcpTargetExactly(target: string)
    requires target != ""
    ensures CheckTcp(target).Good? <==> exists port :: PortOf(target, port) && IsPort(port)
  {
    hide IsPort, CheckTcp, PortOf;
    if CheckTcp(target).Good? {
      var port := GoodPort(target);
    }
    forall port | PortOf(target, port) && IsPort(port)
      ensures CheckTcp(target).Good?
    {
      PortIsFound(target, port);
    }
  }

  lemma GoodPort(target: string) returns (port: string)
    requires target != "" && CheckTcp(target).Good?
    ensures PortOf(target, port) && IsPort(port)
  {
    hide IsPort, Find, FindLast;
    var colon := FindLast(target, ':').value;
    var after := target[colon + 1..];
    var mark := Find(after, '/');
    port := after[..mark];
    FindLastFree(target, ':');
    Cut(after, mark, mark);
    Cut(target, colon, colon + 1);
    assert after[mark..mark] + after[mark..] == after[mark..] && target[colon..colon + 1] == ":";
    IsPortOf(target, target[..colon], port, after[mark..]);
  }

  lemma PortIsFound(target: string, port: string)
    requires PortOf(target, port) && IsPort(port)
    ensures CheckTcp(target).Good?
  {
    hide IsPort, Find, FindLast;
    var host, path :| target == host + (":" + (port + path)) && host != ""
                      && Free(port + path, ':') && Free(port, '/') && (path == "" || path[0] == '/');
    FindLastFree(target, ':');
    LastColon(target, host, port + path);
    assert target[|host| + 1..] == port + path;
    FindIn(port, '/', path);
  }

  lemma LastColon(target: string, host: string, after: string)
    requires target == host + (":" + after) && Free(after, ':')
    ensures FindLast(target, ':') == Some(|host|)
  {
    hide FindLast;
    assert target[|host|] == ':';
    assert forall j :: |host| < j < |target| ==> target[j] == after[j - |host| - 1];
  }

  /** The last digit of a numeral counts ones, the others ten times as much. */
  lemma DecimalDigit(s: string, d: char)
    requires (forall i :: 0 <= i < |s| ==> IsDigit(s[i])) && IsDigit(d)
    ensures forall i :: 0 <= i < |s + [d]| ==> IsDigit((s + [d])[i])
    ensures Decimal(s + [d]) == 10 * Decimal(s) + (d as int - '0' as int)
  {
    assert (s + [d])[..|s|] == s;
  }

  /** One more digit leaves a port exactly while the number stays below 65536; a plus sign in front is allowed. */
  lemma PortDigit(s: string, d: char)
    requires (forall i :: 0 <= i < |s| ==> IsDigit(s[i])) && IsDigit(d)
    ensures IsPort(s + [d]) <==> 10 * Decimal(s) + (d as int - '0' as int) < 65536
    ensures IsPort("+" + (s + [d])) <==> IsPort(s + [d])
    ensures Decimal("") == 0 && !IsPort("") && !IsPort("+")
  {
    DecimalDigit(s, d);
    assert ("+" + (s + [d]))[1..] == s + [d];
    assert "+"[1..] == "";
  }

  /** What the parser's answer says about the string, whichever it is. */
  lemma AnswerIsExact(s: string)
    ensures forall url :: ParseUrl(s) == Good(url) <==> Denotes(s, url)
    ensures ParseUrl(s).Bad? ==> Faulty(s, ParseUrl(s).error)
  {
    hide ParseUrl, Denotes, Faulty;
    if ParseUrl(s).Bad? {
      ErrorNamesFault(s);
    }
    forall url
      ensures ParseUrl(s) == Good(url) <==> Denotes(s, url)
    {
      ParsesExactly(s, url);
    }
  }

  // ---- The parser ----

  method FromStr(s: string) returns (r: Outcome<Url>)
    ensures r == ParseUrl(s)
    ensures forall url :: r == Good(url) <==> Denotes(s, url)
    ensures r.Bad? ==> Faulty(s, r.error)
  {
    hide Denotes, Faulty, SeparatorAt, Pieces, PairsOf, CheckTcp, ParseScheme, Find, FindSeparator;
    AnswerIsExact(s);
    if s == "" {
      return Bad(EmptyUrl);
    }
    var i := FindSeparator(s);
    if i == |s| || i == 0 {
      return Bad(MissingScheme);
    }
    var scheme := ParseScheme(s[..i]);
    if scheme.Bad? {
      return Bad(scheme.error);
    }
    var rest := s[i + 3..];
    var mark := Find(rest, '?');
    var target := rest[..mark];
    var query := if mark == |rest| then "" else rest[mark + 1..];
    if target == "" {
      return Bad(MissingTarget(TargetKind(scheme.value)));
    }
    if scheme.value.Tcp? {
      var checked := CheckTcp(target);
      if checked.Bad? {
        return Bad(checked.error);
      }
    }
    var pairs: Outcome<seq<Pair>> := Good([]);
    if query != "" {
      pairs := ParseQuery(query);
    }
    if pairs.Bad? {
      return Bad(pairs.error);
    }
    return Good(Url(scheme.value, target, pairs.value));
  }
}
